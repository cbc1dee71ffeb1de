/** Reattaching to agents that survived a restart: the journal says who they were, the sidecar says
    who is still there. */
module Reconnect {
  import opened Text

  /** A journal entry; a field is absent when it was empty on recording. */
  datatype Entry = Entry(sidecarId: string, agentId: Option<string>, agentType: Option<string>,
                         title: Option<string>, cwd: Option<string>)

  /** What the sidecar reports about an agent. */
  datatype Report = Report(id: string, status: string, agentType: Option<string>, title: Option<string>,
                           cwd: Option<string>)

  /** A registered agent; one that was spawned without the sidecar has no sidecar id. */
  datatype Agent = Agent(agentType: string, title: string, cwd: string, status: string, sidecarId: Option<string>)

  datatype Info = Info(agentId: string, sidecarId: string, title: string, status: string, fromJournal: bool)

  type Index = map<string, Entry>

  const HISTORY: nat := 200

  // ---------- the journal index ----------

  /** The readable entries of a journal file, in file order. */
  function Valid(lines: seq<string>, parse: string -> Option<Entry>): seq<Entry> {
    if lines == [] then []
    else
      var front := Valid(lines[..|lines| - 1], parse);
      match parse(lines[|lines| - 1])
      case Some(e) => front + [e]
      case None => front
  }

  function Reversed<T>(s: seq<T>): (r: seq<T>)
    ensures |r| == |s| && forall i :: 0 <= i < |s| ==> r[i] == s[|s| - 1 - i]
  {
    seq(|s|, i requires 0 <= i < |s| => s[|s| - 1 - i])
  }

  method LoadHistory(lines: seq<string>, parse: string -> Option<Entry>, limit: nat) returns (entries: seq<Entry>)
    ensures entries == Reversed(Tail(Valid(lines, parse), limit))
  {
    entries := [];
    for i := 0 to |lines|
      invariant entries == Valid(lines[..i], parse)
    {
      assert lines[..i + 1][..i] == lines[..i];
      match parse(lines[i]) {
        case None =>
        case Some(e) => entries := entries + [e];
      }
    }
    assert lines[..|lines|] == lines;
    ghost var valid := entries;
    entries := Reversed(entries);
    if |entries| > limit { entries := entries[..limit]; }
    assert entries == Reversed(Tail(valid, limit));
  }

  /** Position `i` holds the newest entry about `sid`. */
  predicate Newest(entries: seq<Entry>, sid: string, i: nat) {
    i < |entries| && entries[i].sidecarId == sid && forall j :: i < j < |entries| ==> entries[j].sidecarId != sid
  }

  /** The index names exactly the sidecar ids found, each with its newest entry. */
  predicate IsIndex(index: Index, entries: seq<Entry>) {
    "" !in index
    && (forall sid :: sid in index ==>
                        exists i :: 0 <= i < |entries| && Newest(entries, sid, i) && entries[i] == index[sid])
    && (forall e <- entries :: e.sidecarId != "" ==> e.sidecarId in index)
  }

  /** First come, first kept, over the newest entries first. */
  method BuildJournalIndex(lines: seq<string>, parse: string -> Option<Entry>) returns (index: Index)
    ensures IsIndex(index, Tail(Valid(lines, parse), HISTORY))
  {
    hide Valid, Tail, IsIndex;
    var entries := LoadHistory(lines, parse, HISTORY);
    ghost var recent := Tail(Valid(lines, parse), HISTORY);
    var n := |entries|;
    index := map[];
    EmptyIndex();
    assert recent[n..] == [];
    for i := 0 to n
      invariant IsIndex(index, recent[n - i..])
    {
      var sid := entries[i].sidecarId;
      assert entries[i] == recent[n - 1 - i];
      OneOlder(index, recent[n - i..], entries[i]);
      assert recent[n - 1 - i..] == [entries[i]] + recent[n - i..];
      if sid != "" && sid !in index {
        index := index[sid := entries[i]];
      }
    }
    assert recent[0..] == recent;
  }

  lemma EmptyIndex()
    ensures IsIndex(map[], [])
  {
  }

  lemma OneOlder(index: Index, entries: seq<Entry>, e: Entry)
    requires IsIndex(index, entries)
    ensures IsIndex(if e.sidecarId != "" && e.sidecarId !in index then index[e.sidecarId := e] else index,
                    [e] + entries)
  {
    var all := [e] + entries;
    var next := if e.sidecarId != "" && e.sidecarId !in index then index[e.sidecarId := e] else index;
    forall sid | sid in next ensures exists i :: 0 <= i < |all| && Newest(all, sid, i) && all[i] == next[sid] {
      if sid in index {
        var i :| 0 <= i < |entries| && Newest(entries, sid, i) && entries[i] == index[sid];
        OlderStill(e, entries, sid, i);
      } else {
        FirstOfItsKind(index, entries, e);
      }
    }
  }

  lemma OlderStill(e: Entry, entries: seq<Entry>, sid: string, i: nat)
    requires Newest(entries, sid, i)
    ensures Newest([e] + entries, sid, i + 1) && ([e] + entries)[i + 1] == entries[i]
  {
  }

  lemma FirstOfItsKind(index: Index, entries: seq<Entry>, e: Entry)
    requires IsIndex(index, entries) && e.sidecarId != "" && e.sidecarId !in index
    ensures Newest([e] + entries, e.sidecarId, 0)
  {
  }

  /** Such an index is unique. */
  lemma OneIndex(a: Index, b: Index, entries: seq<Entry>)
    requires IsIndex(a, entries) && IsIndex(b, entries)
    ensures a == b
  {
  }

  // ---------- reattaching ----------

  function OrElse(o: Option<string>, d: string): string {
    match o case Some(v) => v case None => d
  }

  predicate Gone(r: Report) {
    r.id == "" || r.status == "closed" || r.status == "error"
  }

  function StatusOf(sidecarStatus: string): string {
    if sidecarStatus == "idle" || sidecarStatus == "closed" then "idle"
    else if sidecarStatus == "error" then "error"
    else "running"
  }

  function Short(id: string): string {
    if |id| <= 8 then id else id[..8]
  }

  function AgentId(index: Index, r: Report): string {
    if r.id in index then OrElse(index[r.id].agentId, r.id) else r.id
  }

  function Rebuilt(index: Index, r: Report): Agent {
    var title := OrElse(r.title, Short(r.id));
    if r.id in index then
      var e := index[r.id];
      Agent(OrElse(e.agentType, "claude"), OrElse(e.title, title), OrElse(e.cwd, OrElse(r.cwd, "")),
            StatusOf(r.status), Some(r.id))
    else
      Agent(OrElse(r.agentType, "claude"), title, OrElse(r.cwd, ""), StatusOf(r.status), Some(r.id))
  }

  function InfoOf(index: Index, r: Report): Info {
    Info(AgentId(index, r), r.id, Rebuilt(index, r).title, StatusOf(r.status), r.id in index)
  }

  datatype Outcome = Outcome(agents: map<string, Agent>, recovered: seq<Info>)

  /** The registry and the list of recovered agents once the reports have been gone through. */
  function Reattached(agents: map<string, Agent>, index: Index, rs: seq<Report>): Outcome {
    if rs == [] then Outcome(agents, [])
    else
      var o := Reattached(agents, index, rs[..|rs| - 1]);
      var r := rs[|rs| - 1];
      var id := AgentId(index, r);
      if Gone(r) || id in o.agents then o
      else Outcome(o.agents[id := Rebuilt(index, r)], o.recovered + [InfoOf(index, r)])
  }

  /** What the other tasks make of the registry while the subscription for the agent that report `k`
      registered is awaited. The program's own event consumer never hands over to them there, since
      its lock guards nothing that waits; one that does is allowed for. */
  type Others = (nat, map<string, Agent>) -> map<string, Agent>

  predicate Skipped(agents: map<string, Agent>, index: Index, r: Report) {
    Gone(r) || AgentId(index, r) in agents
  }

  /** The same with the others at work in between. */
  function Amid(agents: map<string, Agent>, index: Index, rs: seq<Report>, others: Others): Outcome {
    if rs == [] then Outcome(agents, [])
    else
      var k := |rs| - 1;
      var o := Amid(agents, index, rs[..k], others);
      if Skipped(o.agents, index, rs[k]) then o
      else Outcome(others(k, With(o.agents, index, rs[k])), o.recovered + [InfoOf(index, rs[k])])
  }

  function With(agents: map<string, Agent>, index: Index, r: Report): map<string, Agent> {
    agents[AgentId(index, r) := Rebuilt(index, r)]
  }

  class Operator {
    var agents: map<string, Agent>
    var subscribed: seq<string>

    method ReconnectAgents(reports: Option<seq<Report>>, index: Index, others: Others) returns (recovered: seq<Info>)
      modifies this
      ensures Outcome(agents, recovered)
              == match reports
                 case None => Outcome(old(agents), [])
                 case Some(rs) => Amid(old(agents), index, rs, others)
      ensures subscribed == old(subscribed) + Ids(recovered)
    {
      hide AgentId, Amid, OrElse, Short, StatusOf;
      recovered := [];
      assert subscribed + [] == subscribed;
      if reports.None? { return; }
      var rs := reports.value;
      AmidNone(agents, index, others);
      assert rs[..0] == [];
      for k := 0 to |rs|
        invariant Outcome(agents, recovered) == Amid(old(agents), index, rs[..k], others)
        invariant subscribed == old(subscribed) + Ids(recovered)
      {
        var r := rs[k];
        AmidNext(old(agents), index, rs, k, others);
        if r.id == "" { continue; }
        if r.status == "closed" || r.status == "error" { continue; }
        var agentType, title, cwd;
        if r.id in index {
          var e := index[r.id];
          agentType := OrElse(e.agentType, "claude");
          title := OrElse(e.title, OrElse(r.title, Short(r.id)));
          cwd := OrElse(e.cwd, OrElse(r.cwd, ""));
        } else {
          agentType := OrElse(r.agentType, "claude");
          title := OrElse(r.title, Short(r.id));
          cwd := OrElse(r.cwd, "");
        }
        var agentId := AgentId(index, r);
        if agentId in agents { continue; }
        var status := StatusOf(r.status);
        agents := agents[agentId := Agent(agentType, title, cwd, status, Some(r.id))];
        Assoc(old(subscribed), Ids(recovered), [r.id]);
        subscribed := subscribed + [r.id];
        agents := others(k, agents);
        recovered := recovered + [Info(agentId, r.id, title, status, r.id in index)];
      }
      assert rs[..|rs|] == rs;
    }
  }

  lemma AmidNone(agents: map<string, Agent>, index: Index, others: Others)
    ensures Amid(agents, index, [], others) == Outcome(agents, [])
  {
  }

  lemma AmidNext(agents: map<string, Agent>, index: Index, rs: seq<Report>, k: nat, others: Others)
    requires k < |rs|
    ensures var o := Amid(agents, index, rs[..k], others); var r := rs[k];
            Amid(agents, index, rs[..k + 1], others)
            == if Skipped(o.agents, index, r) then o
               else Outcome(others(k, With(o.agents, index, r)), o.recovered + [InfoOf(index, r)])
  {
    hide With, InfoOf, Skipped;
    assert rs[..k + 1][..k] == rs[..k];
  }

  /** Left alone, this is the plain reading. */
  lemma {:induction false} Undisturbed(agents: map<string, Agent>, index: Index, rs: seq<Report>, others: Others)
    requires forall k: nat, m :: k < |rs| ==> others(k, m) == m
    ensures Amid(agents, index, rs, others) == Reattached(agents, index, rs)
  {
    hide AgentId, Rebuilt, InfoOf, Gone;
    if rs != [] {
      Undisturbed(agents, index, rs[..|rs| - 1], others);
    }
  }

  function Ids(recovered: seq<Info>): (r: seq<string>)
    ensures |r| == |recovered|
  {
    seq(|recovered|, i requires 0 <= i < |recovered| => recovered[i].sidecarId)
  }

  /** Nothing registered is replaced; the recovered ids are distinct, were free before, and are the
      only new ones. */
  predicate Added(before: map<string, Agent>, o: Outcome) {
    (forall id :: id in before ==> id in o.agents && o.agents[id] == before[id])
    && (forall i, j :: 0 <= i < j < |o.recovered| ==> o.recovered[i].agentId != o.recovered[j].agentId)
    && (forall i :: 0 <= i < |o.recovered| ==> o.recovered[i].agentId !in before)
    && o.agents.Keys == before.Keys + NewIds(o.recovered)
  }

  function NewIds(recovered: seq<Info>): set<string> {
    set i | 0 <= i < |recovered| :: recovered[i].agentId
  }

  predicate Complete(agents: map<string, Agent>, index: Index, rs: seq<Report>) {
    forall r <- rs :: !Gone(r) ==> AgentId(index, r) in agents
  }

  lemma OneAdded(before: map<string, Agent>, o: Outcome, info: Info, agent: Agent)
    requires Added(before, o) && info.agentId !in o.agents
    ensures Added(before, Outcome(o.agents[info.agentId := agent], o.recovered + [info]))
  {
    var more := o.recovered + [info];
    assert NewIds(more) == NewIds(o.recovered) + {info.agentId} by {
      assert more[|o.recovered|] == info;
      assert forall i :: 0 <= i < |o.recovered| ==> more[i] == o.recovered[i];
    }
    forall i | 0 <= i < |o.recovered| ensures more[i].agentId != info.agentId {
      assert o.recovered[i].agentId in NewIds(o.recovered);
    }
  }

  /** Reconnecting only adds, each id once, and afterwards every live agent's id is taken. */
  lemma {:induction false} OnlyAdds(before: map<string, Agent>, index: Index, rs: seq<Report>)
    ensures var o := Reattached(before, index, rs); Added(before, o) && Complete(o.agents, index, rs)
  {
    hide Rebuilt, AgentId, InfoOf;
    if rs != [] {
      var front, r := rs[..|rs| - 1], rs[|rs| - 1];
      assert rs == front + [r];
      OnlyAdds(before, index, front);
      var o := Reattached(before, index, front);
      if !Gone(r) && AgentId(index, r) !in o.agents {
        InfoId(index, r);
        OneAdded(before, o, InfoOf(index, r), Rebuilt(index, r));
      }
    }
  }

  lemma InfoId(index: Index, r: Report)
    ensures InfoOf(index, r).agentId == AgentId(index, r)
  {
  }

  /** A reconnect adds nothing exactly when every live agent's id is taken already. */
  lemma AddsNothing(before: map<string, Agent>, index: Index, rs: seq<Report>)
    ensures Reattached(before, index, rs).recovered == [] <==> Complete(before, index, rs)
  {
    hide AgentId, InfoOf, Rebuilt, Reattached;
    var o := Reattached(before, index, rs);
    OnlyAdds(before, index, rs);
    if Complete(before, index, rs) {
      AllTaken(before, index, rs);
    }
    assert o.recovered == [] ==> o.agents.Keys == before.Keys;
  }

  lemma {:induction false} AllTaken(before: map<string, Agent>, index: Index, rs: seq<Report>)
    requires Complete(before, index, rs)
    ensures Reattached(before, index, rs) == Outcome(before, [])
  {
    hide AgentId, InfoOf, Rebuilt;
    if rs != [] {
      var front, r := rs[..|rs| - 1], rs[|rs| - 1];
      assert rs == front + [r];
      AllTaken(before, index, front);
    }
  }

  /** Reconnecting twice over one index is reconnecting once. */
  lemma ReconnectTwice(before: map<string, Agent>, index: Index, rs: seq<Report>)
    ensures var once := Reattached(before, index, rs).agents; Reattached(once, index, rs) == Outcome(once, [])
  {
    hide Reattached, Complete;
    OnlyAdds(before, index, rs);
    AllTaken(Reattached(before, index, rs).agents, index, rs);
  }

  // ---------- who ends up registered ----------

  /** Report `k` is the first live one with its agent id, and that id is free. */
  predicate Registers(before: map<string, Agent>, index: Index, rs: seq<Report>, k: nat) {
    k < |rs| && !Gone(rs[k]) && AgentId(index, rs[k]) !in before
    && forall j :: 0 <= j < k && !Gone(rs[j]) ==> AgentId(index, rs[j]) != AgentId(index, rs[k])
  }

  lemma RegistersLonger(before: map<string, Agent>, index: Index, rs: seq<Report>, r: Report, k: nat)
    requires k < |rs|
    ensures Registers(before, index, rs + [r], k) <==> Registers(before, index, rs, k)
  {
    hide AgentId;
    assert forall j :: 0 <= j <= k ==> (rs + [r])[j] == rs[j];
  }

  /** The new registrations are exactly those of the reports that register, each with its own data. */
  lemma {:induction false} RegisteredExactly(before: map<string, Agent>, index: Index, rs: seq<Report>)
    ensures RegistersAll(before, index, rs) && RegistersOnly(before, index, rs)
  {
    hide RegistersAll, RegistersOnly;
    if rs == [] {
      NothingRegistered(before, index);
    } else {
      var front, r := rs[..|rs| - 1], rs[|rs| - 1];
      assert rs == front + [r];
      RegisteredExactly(before, index, front);
      AllAfter(before, index, front, r);
      OnlyAfter(before, index, front, r);
    }
  }

  predicate RegistersAll(before: map<string, Agent>, index: Index, rs: seq<Report>) {
    var o := Reattached(before, index, rs);
    forall k: nat :: k < |rs| && Registers(before, index, rs, k) ==>
                       AgentId(index, rs[k]) in o.agents && o.agents[AgentId(index, rs[k])] == Rebuilt(index, rs[k])
  }

  predicate RegistersOnly(before: map<string, Agent>, index: Index, rs: seq<Report>) {
    forall id :: id in Reattached(before, index, rs).agents && id !in before ==>
                   exists k: nat :: k < |rs| && Registers(before, index, rs, k) && AgentId(index, rs[k]) == id
  }

  lemma NothingRegistered(before: map<string, Agent>, index: Index)
    ensures RegistersAll(before, index, []) && RegistersOnly(before, index, [])
  {
  }

  lemma ReattachedSnoc(before: map<string, Agent>, index: Index, front: seq<Report>, r: Report)
    ensures var o := Reattached(before, index, front);
            Reattached(before, index, front + [r])
            == if Skipped(o.agents, index, r) then o
               else Outcome(With(o.agents, index, r), o.recovered + [InfoOf(index, r)])
  {
    hide AgentId, Rebuilt, InfoOf, Gone;
    assert (front + [r])[..|front|] == front;
  }

  lemma AllAfter(before: map<string, Agent>, index: Index, front: seq<Report>, r: Report)
    requires RegistersAll(before, index, front)
    ensures RegistersAll(before, index, front + [r])
  {
    hide Rebuilt, AgentId, InfoOf, Registers, Reattached, Gone;
    var rs := front + [r];
    LastRegisters(before, index, front, r);
    ReattachedSnoc(before, index, front, r);
    forall k: nat | k < |front|
      ensures (Registers(before, index, rs, k) <==> Registers(before, index, front, k)) && front[k] == rs[k]
    {
      RegistersLonger(before, index, front, r, k);
    }
  }

  lemma OnlyAfter(before: map<string, Agent>, index: Index, front: seq<Report>, r: Report)
    requires RegistersOnly(before, index, front)
    ensures RegistersOnly(before, index, front + [r])
  {
    hide Rebuilt, AgentId, InfoOf, Registers, Reattached, Gone;
    var rs := front + [r];
    LastRegisters(before, index, front, r);
    ReattachedSnoc(before, index, front, r);
    forall id | id in Reattached(before, index, rs).agents && id !in before
      ensures exists k: nat :: k < |rs| && Registers(before, index, rs, k) && AgentId(index, rs[k]) == id
    {
      if id in Reattached(before, index, front).agents {
        var k: nat :| k < |front| && Registers(before, index, front, k) && AgentId(index, front[k]) == id;
        RegistersLonger(before, index, front, r, k);
        assert Registers(before, index, rs, k) && rs[k] == front[k];
      } else {
        assert Registers(before, index, rs, |front|) && rs[|front|] == r;
      }
    }
  }

  lemma LastRegisters(before: map<string, Agent>, index: Index, front: seq<Report>, r: Report)
    ensures var o := Reattached(before, index, front);
            Registers(before, index, front + [r], |front|) <==> !Gone(r) && AgentId(index, r) !in o.agents
  {
    hide AgentId, Reattached;
    var o := Reattached(before, index, front);
    var rs := front + [r];
    OnlyAdds(before, index, front);
    assert forall j :: 0 <= j < |front| ==> rs[j] == front[j];
    if AgentId(index, r) in o.agents && AgentId(index, r) !in before {
      LiveFor(before, index, front, AgentId(index, r));
    }
    if !Gone(r) && AgentId(index, r) !in o.agents {
      forall j | 0 <= j < |front| && !Gone(front[j]) ensures AgentId(index, front[j]) != AgentId(index, r) {
        assert front[j] in front;
      }
    }
  }

  /** A new id is named by some live report. */
  lemma {:induction false} LiveFor(before: map<string, Agent>, index: Index, rs: seq<Report>, id: string)
    requires id in Reattached(before, index, rs).agents && id !in before
    ensures exists j :: 0 <= j < |rs| && !Gone(rs[j]) && AgentId(index, rs[j]) == id
  {
    hide Rebuilt, AgentId, InfoOf;
    var n := |rs| - 1;
    if id in Reattached(before, index, rs[..n]).agents {
      LiveFor(before, index, rs[..n], id);
      var j :| 0 <= j < n && !Gone(rs[..n][j]) && AgentId(index, rs[..n][j]) == id;
      assert rs[j] == rs[..n][j];
    }
  }

  /** The agent registered under `id` is the sidecar's agent `sid`. */
  predicate Holds(agents: map<string, Agent>, id: string, sid: string) {
    id in agents && agents[id].sidecarId == Some(sid)
  }

  /** Every live agent is registered as itself. */
  predicate AllRegistered(agents: map<string, Agent>, index: Index, rs: seq<Report>) {
    forall r <- rs :: !Gone(r) ==> Holds(agents, AgentId(index, r), r.id)
  }

  /** Nobody else has the id the index names, and no two live agents are given one id. */
  predicate NamesAreOwn(before: map<string, Agent>, index: Index, rs: seq<Report>) {
    (forall r <- rs :: !Gone(r) ==> AgentId(index, r) !in before || Holds(before, AgentId(index, r), r.id))
    && (forall r, q :: r in rs && q in rs && !Gone(r) && !Gone(q) && AgentId(index, r) == AgentId(index, q) ==>
                         r.id == q.id)
  }

  lemma RebuiltHolds(index: Index, r: Report)
    ensures Rebuilt(index, r).sidecarId == Some(r.id)
  {
  }

  /** Every live agent ends up registered under its own sidecar id exactly when the ids named for them
      are free or already theirs, and distinct for different agents. */
  lemma RegisteredAsThemselves(before: map<string, Agent>, index: Index, rs: seq<Report>)
    ensures AllRegistered(Reattached(before, index, rs).agents, index, rs) <==> NamesAreOwn(before, index, rs)
  {
    hide Rebuilt, AgentId, Reattached, Registers;
    var o := Reattached(before, index, rs);
    OnlyAdds(before, index, rs);
    RegisteredExactly(before, index, rs);
    if NamesAreOwn(before, index, rs) {
      forall r | r in rs && !Gone(r) ensures Holds(o.agents, AgentId(index, r), r.id) {
        if AgentId(index, r) !in before {
          var k: nat :| k < |rs| && Registers(before, index, rs, k) && AgentId(index, rs[k]) == AgentId(index, r);
          RegistrarIsLive(before, index, rs, k);
          RebuiltHolds(index, rs[k]);
          assert rs[k].id == r.id;
        }
      }
    }
  }

  lemma RegistrarIsLive(before: map<string, Agent>, index: Index, rs: seq<Report>, k: nat)
    requires Registers(before, index, rs, k)
    ensures k < |rs| && rs[k] in rs && !Gone(rs[k]) && AgentId(index, rs[k]) !in before
  {
  }

  // ---------- one sidecar agent under two ids ----------

  /** Two registered agents are the same agent of the sidecar. */
  predicate Doubled(agents: map<string, Agent>) {
    exists id, other :: id in agents && other in agents && id != other && Twins(agents[id], agents[other])
  }

  predicate Twins(a: Agent, b: Agent) {
    a.sidecarId.Some? && a.sidecarId.value != "" && a.sidecarId == b.sidecarId
  }

  /** Some registered agent is the sidecar's agent `sid`. */
  predicate Known(agents: map<string, Agent>, sid: string) {
    exists id :: id in agents && Holds(agents, id, sid)
  }

  lemma HoldsTwins(agents: map<string, Agent>, id: string, other: string, sid: string)
    requires Holds(agents, id, sid) && Holds(agents, other, sid) && id != other && sid != ""
    ensures Doubled(agents)
  {
    assert Twins(agents[id], agents[other]);
  }

  /** Two new agents are never one: the same sidecar id names the same agent id, which is given out
      once. */
  lemma NewAreApart(before: map<string, Agent>, index: Index, rs: seq<Report>, id: string, other: string)
    requires var o := Reattached(before, index, rs);
             id in o.agents && other in o.agents && id !in before && other !in before
             && Twins(o.agents[id], o.agents[other])
    ensures id == other
  {
    hide Rebuilt, AgentId, Reattached, Registers;
    RegisteredExactly(before, index, rs);
    var j: nat :| j < |rs| && Registers(before, index, rs, j) && AgentId(index, rs[j]) == id;
    var k: nat :| k < |rs| && Registers(before, index, rs, k) && AgentId(index, rs[k]) == other;
    RegistrarIsLive(before, index, rs, j);
    RegistrarIsLive(before, index, rs, k);
    RebuiltHolds(index, rs[j]);
    RebuiltHolds(index, rs[k]);
    SameSidecarSameId(index, rs[j], rs[k]);
  }

  lemma SameSidecarSameId(index: Index, r: Report, q: Report)
    ensures r.id == q.id ==> AgentId(index, r) == AgentId(index, q)
  {
  }

  /** Where no two registered agents are one, a reconnect makes some of them one exactly when a report
      registers an agent that is already registered under another id, such as one whose spawn is
      not in the journal. */
  lemma DoublesExactly(before: map<string, Agent>, index: Index, rs: seq<Report>)
    requires !Doubled(before)
    ensures Doubled(Reattached(before, index, rs).agents)
            <==> exists k: nat :: k < |rs| && Registers(before, index, rs, k) && Known(before, rs[k].id)
  {
    hide Rebuilt, AgentId, Reattached, Registers, Gone;
    var o := Reattached(before, index, rs);
    OnlyAdds(before, index, rs);
    if k: nat :| k < |rs| && Registers(before, index, rs, k) && Known(before, rs[k].id) {
      RegisteringDoubles(before, index, rs, k);
    }
    if Doubled(o.agents) {
      var id, other :| id in o.agents && other in o.agents && id != other && Twins(o.agents[id], o.agents[other]);
      if id !in before && other !in before {
        NewAreApart(before, index, rs, id, other);
      } else if id !in before {
        NewIsKnown(before, index, rs, id, other);
      } else if other !in before {
        NewIsKnown(before, index, rs, other, id);
      }
    }
  }

  lemma RegisteringDoubles(before: map<string, Agent>, index: Index, rs: seq<Report>, k: nat)
    requires Registers(before, index, rs, k) && Known(before, rs[k].id)
    ensures Doubled(Reattached(before, index, rs).agents)
  {
    hide Rebuilt, AgentId, Reattached, Registers, Doubled;
    var o := Reattached(before, index, rs);
    OnlyAdds(before, index, rs);
    RegisteredExactly(before, index, rs);
    RegistrarIsLive(before, index, rs, k);
    RebuiltHolds(index, rs[k]);
    var id :| id in before && Holds(before, id, rs[k].id);
    HoldsTwins(o.agents, AgentId(index, rs[k]), id, rs[k].id);
  }

  lemma NewIsKnown(before: map<string, Agent>, index: Index, rs: seq<Report>, id: string, other: string)
    requires var o := Reattached(before, index, rs);
             id in o.agents && id !in before && other in before && other in o.agents
             && Twins(o.agents[id], o.agents[other])
    ensures exists k: nat :: k < |rs| && Registers(before, index, rs, k) && Known(before, rs[k].id)
  {
    hide Rebuilt, AgentId, Reattached, Registers;
    OnlyAdds(before, index, rs);
    RegisteredExactly(before, index, rs);
    var k: nat :| k < |rs| && Registers(before, index, rs, k) && AgentId(index, rs[k]) == id;
    RegistrarIsLive(before, index, rs, k);
    RebuiltHolds(index, rs[k]);
    assert Holds(before, other, rs[k].id);
  }

  // ---------- with the others at work ----------

  /** Nobody is taken out, and who has a sidecar id keeps it. */
  predicate Grown(a: map<string, Agent>, b: map<string, Agent>) {
    forall id <- a :: id in b && (a[id].sidecarId.Some? ==> b[id].sidecarId == a[id].sidecarId)
  }

  ghost predicate OnlyGrow(others: Others) {
    forall k, m :: Grown(m, others(k, m))
  }

  lemma WithGrown(agents: map<string, Agent>, index: Index, r: Report)
    requires !Skipped(agents, index, r)
    ensures Grown(agents, With(agents, index, r))
  {
  }

  /** When the others only add, so does the whole, and every live agent's id is taken in the end. */
  lemma {:induction false} AmidOnlyAdds(before: map<string, Agent>, index: Index, rs: seq<Report>, others: Others)
    requires OnlyGrow(others)
    ensures var o := Amid(before, index, rs, others);
            && Grown(before, o.agents) && Complete(o.agents, index, rs)
            && (forall i, j :: 0 <= i < j < |o.recovered| ==> o.recovered[i].agentId != o.recovered[j].agentId)
            && (forall info <- o.recovered :: info.agentId in o.agents && info.agentId !in before)
  {
    hide AgentId, Rebuilt, InfoOf, Gone;
    if rs != [] {
      var k := |rs| - 1;
      var r := rs[k];
      assert rs == rs[..k] + [r];
      AmidOnlyAdds(before, index, rs[..k], others);
      var o := Amid(before, index, rs[..k], others);
      InfoId(index, r);
      if !Skipped(o.agents, index, r) {
        WithGrown(o.agents, index, r);
        assert Grown(With(o.agents, index, r), others(k, With(o.agents, index, r)));
      }
    }
  }

  /** Registering makes two agents one exactly when the agent is already there under another id. */
  lemma RegisteringDoublesExactly(agents: map<string, Agent>, index: Index, r: Report)
    requires !Doubled(agents) && !Skipped(agents, index, r)
    ensures Doubled(With(agents, index, r)) <==> Known(agents, r.id)
  {
    hide AgentId, Rebuilt;
    RebuiltHolds(index, r);
    var id := AgentId(index, r);
    var after := With(agents, index, r);
    if Known(agents, r.id) {
      var other :| other in agents && Holds(agents, other, r.id);
      HoldsTwins(after, id, other, r.id);
    }
    if Doubled(after) {
      var a, b :| a in after && b in after && a != b && Twins(after[a], after[b]);
      assert a != id && b != id ==> Twins(agents[a], agents[b]);
      assert a == id ==> Holds(agents, b, r.id);
      assert b == id ==> Holds(agents, a, r.id);
    }
  }

  /** The registry as it will be once every spawn under way has its answer: `will` names the sidecar id
      that an agent without one is going to receive. */
  function Foreseen(agents: map<string, Agent>, will: map<string, string>): map<string, Agent> {
    map id | id in agents ::
      if agents[id].sidecarId.None? && id in will then agents[id].(sidecarId := Some(will[id])) else agents[id]
  }

  /** With no spawn under way it is the registry itself. */
  lemma NothingForeseen(agents: map<string, Agent>, will: map<string, string>)
    requires forall id <- agents :: agents[id].sidecarId.None? ==> id !in will
    ensures Foreseen(agents, will) == agents
  {
  }

  lemma ForeseenWith(agents: map<string, Agent>, index: Index, r: Report, will: map<string, string>)
    ensures Foreseen(With(agents, index, r), will) == With(Foreseen(agents, will), index, r)
    ensures Skipped(Foreseen(agents, will), index, r) <==> Skipped(agents, index, r)
  {
    hide AgentId, Rebuilt;
    RebuiltHolds(index, r);
  }

  lemma {:induction false} ForeseenReattached(before: map<string, Agent>, index: Index, rs: seq<Report>,
                                              will: map<string, string>)
    ensures Foreseen(Reattached(before, index, rs).agents, will)
            == Reattached(Foreseen(before, will), index, rs).agents
  {
    hide AgentId, Rebuilt, InfoOf, Gone, Foreseen;
    if rs != [] {
      var n := |rs| - 1;
      ForeseenReattached(before, index, rs[..n], will);
      ForeseenWith(Reattached(before, index, rs[..n]).agents, index, rs[n], will);
    }
  }

  /** Counting the spawns under way, a reconnect makes two agents one exactly when a report registers an
      agent that another id has or will receive, such as one whose spawn is waiting for its answer. */
  lemma DoublesForeseen(before: map<string, Agent>, index: Index, rs: seq<Report>, will: map<string, string>)
    requires !Doubled(Foreseen(before, will))
    ensures Doubled(Foreseen(Reattached(before, index, rs).agents, will))
            <==> exists k: nat :: k < |rs| && Registers(before, index, rs, k) && Known(Foreseen(before, will), rs[k].id)
  {
    hide AgentId, Reattached, Gone, Doubled, Known;
    ForeseenReattached(before, index, rs, will);
    DoublesExactly(Foreseen(before, will), index, rs);
    forall k: nat ensures Registers(Foreseen(before, will), index, rs, k) <==> Registers(before, index, rs, k) {}
  }

  /** A spawn waiting for its answer: its agent is registered a second time while no two agents are one
      yet, and they are as soon as the answer is there. */
  lemma WaitingSpawnDoubles(agents: map<string, Agent>, index: Index, r: Report, id: string)
    requires !Doubled(agents) && !Skipped(agents, index, r) && !Known(agents, r.id)
    requires id in agents && agents[id].sidecarId.None?
    ensures var after := With(agents, index, r);
            !Doubled(after) && Doubled(after[id := after[id].(sidecarId := Some(r.id))])
  {
    hide AgentId, Rebuilt, Known, Doubled;
    RegisteringDoublesExactly(agents, index, r);
    RebuiltHolds(index, r);
    var after := With(agents, index, r);
    HoldsTwins(after[id := after[id].(sidecarId := Some(r.id))], id, AgentId(index, r), r.id);
  }

  /** Report `k` registers an agent that at that moment another id has or will receive. */
  predicate RegistersAgain(before: map<string, Agent>, index: Index, rs: seq<Report>, others: Others,
                           will: map<string, string>, k: nat) {
    k < |rs|
    && var now := Amid(before, index, rs[..k], others).agents;
       !Skipped(now, index, rs[k]) && Known(Foreseen(now, will), rs[k].id)
  }

  /** The others take nobody out, give a waiting agent the id foreseen for it, and make no two agents
      one that would not become one anyway. */
  ghost predicate AsForeseen(others: Others, will: map<string, string>) {
    forall k, m :: Grown(Foreseen(m, will), Foreseen(others(k, m), will))
                   && (Doubled(Foreseen(others(k, m), will)) ==> Doubled(Foreseen(m, will)))
  }

  lemma StaysDoubled(a: map<string, Agent>, b: map<string, Agent>)
    requires Grown(a, b) && Doubled(a)
    ensures Doubled(b)
  {
    var id, other :| id in a && other in a && id != other && Twins(a[id], a[other]);
    assert Twins(b[id], b[other]);
  }

  lemma TurnDoubles(now: map<string, Agent>, index: Index, r: Report, left: map<string, Agent>)
    requires !Skipped(now, index, r) && Grown(With(now, index, r), left)
    requires Doubled(left) ==> Doubled(With(now, index, r))
    ensures Doubled(left) <==> Doubled(now) || Known(now, r.id)
  {
    hide Doubled, Known, Grown, Skipped, With;
    WithGrown(now, index, r);
    if Doubled(now) {
      StaysDoubled(now, With(now, index, r));
    } else {
      RegisteringDoublesExactly(now, index, r);
    }
    if Doubled(With(now, index, r)) {
      StaysDoubled(With(now, index, r), left);
    }
  }

  /** With agents registered and spawns answered by others between the reports, two agents end up as one
      exactly when some report registers an agent that another id has by then or will receive. */
  lemma {:induction false} AmidDoublesExactly(before: map<string, Agent>, index: Index, rs: seq<Report>, others: Others,
                                              will: map<string, string>)
    requires !Doubled(Foreseen(before, will)) && AsForeseen(others, will)
    ensures Doubled(Foreseen(Amid(before, index, rs, others).agents, will))
            <==> exists k: nat :: RegistersAgain(before, index, rs, others, will, k)
  {
    hide Doubled, Known, Grown, Skipped, Amid, With, InfoOf, Foreseen;
    AmidNone(before, index, others);
    if rs != [] {
      var n := |rs| - 1;
      AmidDoublesExactly(before, index, rs[..n], others, will);
      AmidNext(before, index, rs, n, others);
      assert rs[..n + 1] == rs;
      var now := Amid(before, index, rs[..n], others).agents;
      ForeseenWith(now, index, rs[n], will);
      if !Skipped(now, index, rs[n]) {
        TurnDoubles(Foreseen(now, will), index, rs[n], Foreseen(others(n, With(now, index, rs[n])), will));
      }
      assert Doubled(Foreseen(Amid(before, index, rs, others).agents, will))
             <==> Doubled(Foreseen(now, will)) || RegistersAgain(before, index, rs, others, will, n);
      forall k: nat
        ensures k < n ==> (RegistersAgain(before, index, rs, others, will, k)
                           <==> RegistersAgain(before, index, rs[..n], others, will, k))
      {
        if k < n { assert rs[..n][..k] == rs[..k]; }
      }
    }
  }

  // ---------- who comes back ----------

  /** An agent whose spawn the journal recorded in full comes back under its own id with its own type, title
      and directory, running unless the sidecar calls it idle. */
  lemma RestoredFromJournal(before: map<string, Agent>, entries: seq<Entry>, index: Index, rs: seq<Report>, k: nat,
                            i: nat, id: string, agentType: string, title: string, cwd: string)
    requires IsIndex(index, entries) && Registers(before, index, rs, k) && i < |entries|
    requires entries[i] == Entry(rs[k].id, Some(id), Some(agentType), Some(title), Some(cwd))
    requires forall j :: i < j < |entries| ==> entries[j].sidecarId != rs[k].id
    ensures var agents := Reattached(before, index, rs).agents;
            id in agents
            && agents[id] == Agent(agentType, title, cwd, if rs[k].status == "idle" then "idle" else "running",
                                   Some(rs[k].id))
  {
    hide Reattached, Registers;
    RegisteredExactly(before, index, rs);
    RegistrarIsLive(before, index, rs, k);
    assert Newest(entries, rs[k].id, i);
  }

  /** What the journal does not say is taken from the sidecar, and what that does not say has a default. */
  lemma RestoredFromReport(before: map<string, Agent>, index: Index, rs: seq<Report>, k: nat)
    requires Registers(before, index, rs, k)
    ensures var r := rs[k]; var agents := Reattached(before, index, rs).agents;
            var e := if r.id in index then index[r.id] else Entry("", None, None, None, None);
            var id := match e.agentId case Some(x) => x case None => r.id;
            && id in agents && agents[id].sidecarId == Some(r.id)
            && agents[id].agentType
               == (match e.agentType
                   case Some(x) => x
                   case None => if r.id in index || r.agentType.None? then "claude" else r.agentType.value)
            && agents[id].title
               == (match e.title
                   case Some(x) => x
                   case None => if r.title.Some? then r.title.value else if |r.id| <= 8 then r.id else r.id[..8])
            && agents[id].cwd
               == (match e.cwd case Some(x) => x case None => if r.cwd.Some? then r.cwd.value else "")
            && agents[id].status == (if r.status == "idle" then "idle" else "running")
  {
    hide Reattached, Registers;
    RegisteredExactly(before, index, rs);
    RegistrarIsLive(before, index, rs, k);
  }
}
