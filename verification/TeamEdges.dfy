/** Team edges: raw edges between revisions, normalised to edges between members, as one sorted list
    that does not depend on the order in which anything was fetched. */
module TeamEdges {
  import opened Text

  /** The type an edge is given: a text, nothing, or a list or an object, which cannot be hashed. */
  datatype Kind = Label(text: string) | Null | Composite

  datatype Edge = Edge(source: string, target: string, kind: Kind)

  /** An entry of an edge listing; a malformed one raises when it is read. */
  datatype RawEdge = Raw(edge: Edge) | Malformed

  /** A team member: its item and the revision its edges are listed under, empty when it has none. */
  datatype Member = Member(kref: string, rev: string)

  /** The listing of a revision's outgoing edges, empty where the fetch fails. */
  type Listing = string -> seq<RawEdge>

  function StripQuery(kref: string): string {
    match IndexOf(kref, "?")
    case None => kref
    case Some(i) => kref[..i]
  }

  function ItemOf(endpoint: string, revToItem: map<string, string>): string {
    if endpoint == "" then ""
    else if StripQuery(endpoint) in revToItem then revToItem[StripQuery(endpoint)]
    else if endpoint in revToItem then revToItem[endpoint]
    else StripQuery(endpoint)
  }

  /** The member edge that a raw edge stands for, if it stands for one going out of `expected`. */
  function NormalizeEdge(raw: Edge, members: set<string>, revToItem: map<string, string>,
                         expected: string): Option<Edge> {
    if raw.source == "" || raw.target == "" then None
    else
      var src, dst := ItemOf(raw.source, revToItem), ItemOf(raw.target, revToItem);
      if src !in members || dst !in members || src == dst || (expected != "" && src != expected) then None
      else Some(Edge(src, dst, raw.kind))
  }

  function Krefs(ms: seq<Member>): set<string> {
    set m <- ms | m.kref != "" :: m.kref
  }

  /** Revision to item; a later member wins. */
  function RevMap(ms: seq<Member>): map<string, string> {
    if ms == [] then map[]
    else
      var last := ms[|ms| - 1];
      var front := RevMap(ms[..|ms| - 1]);
      if last.rev != "" && last.kref != "" then front[StripQuery(last.rev) := last.kref] else front
  }

  // ---------- order ----------

  predicate Less(a: string, b: string) {
    b != "" && (a == "" || a[0] < b[0] || (a[0] == b[0] && Less(a[1..], b[1..])))
  }

  lemma {:induction false} LessOrder(a: string, b: string, c: string)
    ensures !Less(a, a) && (a != b ==> Less(a, b) || Less(b, a))
    ensures Less(a, b) && Less(b, c) ==> Less(a, c)
    decreases |a|
  {
    if a != "" && b != "" {
      assert a[1..] == b[1..] && a[0] == b[0] ==> a == b;
      LessOrder(a[1..], b[1..], if c == "" then "" else c[1..]);
    } else if a != "" {
      LessOrder(a[1..], "", "");
    }
  }

  /** Only texts are ever compared; the other kinds are put in front. */
  predicate KindLess(a: Kind, b: Kind) {
    match (a, b)
    case (Label(s), Label(t)) => Less(s, t)
    case (Null, Composite) => true
    case (_, Label(_)) => true
    case _ => false
  }

  lemma KindOrder(a: Kind, b: Kind, c: Kind)
    ensures !KindLess(a, a) && (a != b ==> KindLess(a, b) || KindLess(b, a))
    ensures KindLess(a, b) && KindLess(b, c) ==> KindLess(a, c)
  {
    hide Less;
    if a.Label? { LessOrder(a.text, if b.Label? then b.text else "", if c.Label? then c.text else ""); }
  }

  predicate Before(a: Edge, b: Edge) {
    Less(a.source, b.source)
    || (a.source == b.source && (Less(a.target, b.target) || (a.target == b.target && KindLess(a.kind, b.kind))))
  }

  lemma BeforeOrder(a: Edge, b: Edge, c: Edge)
    ensures !Before(a, a) && (a != b ==> Before(a, b) || Before(b, a))
    ensures Before(a, b) && Before(b, c) ==> Before(a, c)
  {
    hide Less, KindLess;
    LessOrder(a.source, b.source, c.source);
    LessOrder(a.target, b.target, c.target);
    KindOrder(a.kind, b.kind, c.kind);
  }

  predicate StrictlySorted(es: seq<Edge>) {
    forall i, j :: 0 <= i < j < |es| ==> Before(es[i], es[j])
  }

  function Elements<T>(s: seq<T>): set<T> {
    set e <- s
  }

  lemma NoElements<T>(s: seq<T>)
    ensures Elements(s) == {} <==> s == []
  {
    if s != [] { assert s[0] in Elements(s); }
  }

  /** A set of edges has one strictly sorted list. */
  lemma {:induction false} OneSortedList(a: seq<Edge>, b: seq<Edge>)
    requires StrictlySorted(a) && StrictlySorted(b) && Elements(a) == Elements(b)
    ensures a == b
  {
    hide Before;
    NoElements(a);
    NoElements(b);
    if a != [] {
      FirstIsLeast(a, b);
      TailElements(a);
      TailElements(b);
      OneSortedList(a[1..], b[1..]);
      assert a == [a[0]] + a[1..] && b == [b[0]] + b[1..];
    }
  }

  lemma FirstIsLeast(a: seq<Edge>, b: seq<Edge>)
    requires StrictlySorted(a) && StrictlySorted(b) && Elements(a) == Elements(b) && a != [] && b != []
    ensures a[0] == b[0]
  {
    hide Before;
    assert a[0] in Elements(b) && b[0] in Elements(a);
    var i :| 0 <= i < |a| && a[i] == b[0];
    var j :| 0 <= j < |b| && b[j] == a[0];
    BeforeOrder(a[0], b[0], a[0]);
  }

  lemma TailElements(a: seq<Edge>)
    requires StrictlySorted(a) && a != []
    ensures StrictlySorted(a[1..]) && Elements(a[1..]) == Elements(a) - {a[0]}
  {
    hide Before;
    forall e ensures e in Elements(a[1..]) <==> e in Elements(a) - {a[0]} {
      if e in Elements(a[1..]) {
        var i :| 0 <= i < |a[1..]| && a[1..][i] == e;
        assert a[i + 1] == e;
        BeforeOrder(a[0], a[0], a[0]);
      }
      if e in Elements(a) && e != a[0] {
        var i :| 0 <= i < |a| && a[i] == e;
        assert a[1..][i - 1] == e;
      }
    }
  }

  function Insert(e: Edge, es: seq<Edge>): seq<Edge> {
    if es == [] then [e]
    else if Before(e, es[0]) then [e] + es
    else [es[0]] + Insert(e, es[1..])
  }

  /** Sorting. */
  function Sorted(es: seq<Edge>): seq<Edge> {
    if es == [] then [] else Insert(es[|es| - 1], Sorted(es[..|es| - 1]))
  }

  lemma {:induction false} InsertSorts(e: Edge, es: seq<Edge>)
    requires StrictlySorted(es) && e !in es
    ensures StrictlySorted(Insert(e, es)) && Elements(Insert(e, es)) == Elements(es) + {e}
  {
    hide Before;
    if es == [] {
    } else if Before(e, es[0]) {
      forall i | 0 < i < |es| ensures Before(e, es[i]) { BeforeOrder(e, es[0], es[i]); }
    } else {
      var rest := Insert(e, es[1..]);
      TailElements(es);
      InsertSorts(e, es[1..]);
      BeforeOrder(e, es[0], e);
      forall x | x in rest ensures Before(es[0], x) {
        assert x in Elements(rest);
        assert x == e || x in es[1..];
      }
      ConsSorted(es[0], rest);
    }
  }

  lemma ConsSorted(e: Edge, es: seq<Edge>)
    requires StrictlySorted(es) && forall x <- es :: Before(e, x)
    ensures StrictlySorted([e] + es) && Elements([e] + es) == Elements(es) + {e}
  {
    hide Before;
  }

  lemma {:induction false} SortedSorts(es: seq<Edge>)
    requires forall i, j :: 0 <= i < j < |es| ==> es[i] != es[j]
    ensures StrictlySorted(Sorted(es)) && Elements(Sorted(es)) == Elements(es)
  {
    hide Before, Insert;
    if es != [] {
      var n := |es| - 1;
      SortedSorts(es[..n]);
      assert es[n] !in Elements(es[..n]);
      InsertSorts(es[n], Sorted(es[..n]));
      assert es == es[..n] + [es[n]];
    }
  }

  /** The list of a set of edges: the only strictly sorted one. */
  predicate ListOf(es: seq<Edge>, all: set<Edge>) {
    StrictlySorted(es) && Elements(es) == all
  }

  predicate SameEnds(a: Edge, b: Edge) {
    a.source == b.source && a.target == b.target
  }

  /** The keys of the edges can be hashed, and compared where they differ in the kind alone. */
  predicate Sortable(all: set<Edge>) {
    (forall e <- all :: !e.kind.Composite?)
    && (forall a, b :: a in all && b in all && a.source == b.source && a.target == b.target && a != b ==>
                         a.kind.Label? && b.kind.Label?)
  }

  /** The list of the edges, or nothing when they cannot be sorted. */
  predicate Answers(result: Option<seq<Edge>>, all: set<Edge>) {
    match result
    case Some(es) => Sortable(all) && ListOf(es, all)
    case None => !Sortable(all)
  }

  /** Two of the edges differ in the kind alone, and not as texts: no comparison sort gets round
      comparing some such pair, and that raises. */
  predicate Incomparable(es: seq<Edge>) {
    exists i, j :: 0 <= i < j < |es| && SameEnds(es[i], es[j]) && !(es[i].kind.Label? && es[j].kind.Label?)
  }

  lemma ComparableMeans(es: seq<Edge>)
    requires forall j, k :: 0 <= j < k < |es| ==> es[j] != es[k]
    requires forall e <- es :: !e.kind.Composite?
    ensures Incomparable(es) <==> !Sortable(Elements(es))
  {
    if Incomparable(es) {
      var i, j :| 0 <= i < j < |es| && SameEnds(es[i], es[j]) && !(es[i].kind.Label? && es[j].kind.Label?);
      assert es[i] in Elements(es) && es[j] in Elements(es);
    }
    if !Sortable(Elements(es)) {
      hide Incomparable;
      var a, b :| a in Elements(es) && b in Elements(es) && a.source == b.source && a.target == b.target && a != b
        && !(a.kind.Label? && b.kind.Label?);
      var i: nat :| i < |es| && es[i] == a;
      var j: nat :| j < |es| && es[j] == b;
      PairIncomparable(es, i, j);
    }
  }

  lemma PairIncomparable(es: seq<Edge>, i: nat, j: nat)
    requires i < |es| && j < |es| && i != j && es[i].source == es[j].source && es[i].target == es[j].target
    requires !(es[i].kind.Label? && es[j].kind.Label?)
    ensures Incomparable(es)
  {
    assert SameEnds(es[i], es[j]) && SameEnds(es[j], es[i]);
  }

  method DedupeAndSortEdges(edges: seq<Edge>) returns (result: Option<seq<Edge>>)
    ensures Answers(result, Elements(edges))
  {
    hide Before, Incomparable, SameEnds;
    var seen: set<Edge> := {};
    var unique: seq<Edge> := [];
    for i := 0 to |edges|
      invariant seen == Elements(unique) == Elements(edges[..i])
      invariant forall e <- unique :: !e.kind.Composite?
      invariant forall j, k :: 0 <= j < k < |unique| ==> unique[j] != unique[k]
    {
      assert edges[..i + 1] == edges[..i] + [edges[i]];
      if edges[i].kind.Composite? {
        assert edges[i] in Elements(edges);
        return None;
      }
      if edges[i] !in seen {
        assert forall j :: 0 <= j < |unique| ==> unique[j] in Elements(unique);
        seen := seen + {edges[i]};
        unique := unique + [edges[i]];
      }
    }
    assert edges[..|edges|] == edges;
    ComparableMeans(unique);
    if Incomparable(unique) { return None; }
    SortedSorts(unique);
    return Some(Sorted(unique));
  }

  // ---------- gathering ----------

  /** The edges of one listing up to its first malformed entry, and whether there is one. */
  function Readable(raws: seq<RawEdge>): seq<Edge> {
    if raws == [] || raws[0].Malformed? then [] else [raws[0].edge] + Readable(raws[1..])
  }

  predicate Clean(raws: seq<RawEdge>) {
    forall r <- raws :: r.Raw?
  }

  /** What a listing contributes: its readable edges that normalise to edges out of `m`. */
  function Contribution(edges: seq<Edge>, m: Member, members: set<string>, revToItem: map<string, string>): set<Edge> {
    set raw <- edges | NormalizeEdge(raw, members, revToItem, m.kref).Some?
      :: NormalizeEdge(raw, members, revToItem, m.kref).value
  }

  /** The direct path keeps the edges read before a malformed entry. */
  function SdkPart(list: Listing, m: Member, members: set<string>, revToItem: map<string, string>): set<Edge> {
    if m.rev == "" then {} else Contribution(Readable(list(m.rev)), m, members, revToItem)
  }

  /** The HTTP path drops a listing that has one. */
  function HttpPart(list: Listing, m: Member, members: set<string>, revToItem: map<string, string>): set<Edge> {
    if m.rev == "" || !Clean(list(m.rev)) then {} else Contribution(Readable(list(m.rev)), m, members, revToItem)
  }

  function Gathered(ms: seq<Member>, part: Member -> set<Edge>): set<Edge> {
    set m <- ms, e <- part(m) :: e
  }

  function SdkEdges(ms: seq<Member>, list: Listing): set<Edge> {
    Gathered(ms, m => SdkPart(list, m, Krefs(ms), RevMap(ms)))
  }

  function HttpEdges(ms: seq<Member>, list: Listing): set<Edge> {
    Gathered(ms, m => HttpPart(list, m, Krefs(ms), RevMap(ms)))
  }

  /** Appends the edges of one member's listing until it is done or an entry raises. */
  method ReadListing(raws: seq<RawEdge>, m: Member, members: set<string>, revToItem: map<string, string>,
                     before: seq<Edge>)
    returns (edges: seq<Edge>, raised: bool)
    ensures Elements(edges) == Elements(before) + Contribution(Readable(raws), m, members, revToItem)
    ensures raised <==> !Clean(raws)
  {
    hide NormalizeEdge, Readable, Contribution;
    edges := before;
    assert Readable(raws[..0]) == [] && Contribution([], m, members, revToItem) == {} by {
      ContributionNone(m, members, revToItem);
    }
    for i := 0 to |raws|
      invariant Clean(raws[..i])
      invariant Elements(edges) == Elements(before) + Contribution(Readable(raws[..i]), m, members, revToItem)
    {
      if raws[i].Malformed? {
        ReadableStops(raws, i);
        return edges, true;
      }
      ReadableNext(raws, i);
      ContributionNext(Readable(raws[..i]), raws[i].edge, m, members, revToItem);
      var normalized := NormalizeEdge(raws[i].edge, members, revToItem, m.kref);
      if normalized.Some? {
        ElementsNext(edges, normalized.value);
        edges := edges + [normalized.value];
      }
    }
    assert raws[..|raws|] == raws;
    return edges, false;
  }

  lemma ElementsNext<T>(s: seq<T>, e: T)
    ensures Elements(s + [e]) == Elements(s) + {e}
  {
  }

  lemma ElementsAppend<T>(s: seq<T>, t: seq<T>)
    ensures Elements(s + t) == Elements(s) + Elements(t)
  {
  }

  lemma ContributionNone(m: Member, members: set<string>, revToItem: map<string, string>)
    ensures Readable([]) == [] && Contribution([], m, members, revToItem) == {}
  {
  }

  lemma ContributionNext(edges: seq<Edge>, e: Edge, m: Member, members: set<string>, revToItem: map<string, string>)
    ensures Contribution(edges + [e], m, members, revToItem)
            == Contribution(edges, m, members, revToItem)
               + match NormalizeEdge(e, members, revToItem, m.kref) case Some(v) => {v} case None => {}
  {
    hide NormalizeEdge;
  }

  lemma {:induction false} ReadableNext(raws: seq<RawEdge>, i: nat)
    requires i < |raws| && Clean(raws[..i]) && raws[i].Raw?
    ensures Clean(raws[..i + 1]) && Readable(raws[..i + 1]) == Readable(raws[..i]) + [raws[i].edge]
  {
    if i == 0 {
      assert raws[..1][1..] == [];
    } else {
      CleanTail(raws, i);
      ReadableNext(raws[1..], i - 1);
      assert raws[..i + 1][1..] == raws[1..][..i] && raws[..i][1..] == raws[1..][..i - 1];
    }
    assert raws[..i + 1] == raws[..i] + [raws[i]];
  }

  lemma CleanTail(raws: seq<RawEdge>, i: nat)
    requires 0 < i <= |raws| && Clean(raws[..i])
    ensures raws[0].Raw? && Clean(raws[1..][..i - 1])
  {
  }

  lemma {:induction false} ReadableStops(raws: seq<RawEdge>, i: nat)
    requires i < |raws| && Clean(raws[..i]) && raws[i].Malformed?
    ensures Readable(raws[..i]) == Readable(raws) && !Clean(raws)
  {
    if i > 0 {
      CleanTail(raws, i);
      ReadableStops(raws[1..], i - 1);
      assert raws[..i][1..] == raws[1..][..i - 1];
    }
    assert raws[i] in raws;
  }

  lemma GatheredNext(ms: seq<Member>, m: Member, part: Member -> set<Edge>)
    ensures Gathered(ms + [m], part) == Gathered(ms, part) + part(m)
  {
  }

  method RevisionMap(ms: seq<Member>) returns (revToItem: map<string, string>)
    ensures revToItem == RevMap(ms)
  {
    hide StripQuery;
    revToItem := map[];
    for i := 0 to |ms|
      invariant revToItem == RevMap(ms[..i])
    {
      assert ms[..i + 1][..i] == ms[..i];
      if ms[i].rev != "" && ms[i].kref != "" {
        revToItem := revToItem[StripQuery(ms[i].rev) := ms[i].kref];
      }
    }
    assert ms[..|ms|] == ms;
  }

  /** The team's edges over the direct connection: one list filled member by member. */
  method GetTeamSdk(ms: seq<Member>, list: Listing) returns (result: Option<seq<Edge>>)
    ensures Answers(result, SdkEdges(ms, list))
  {
    hide Sortable, Contribution, Readable, NormalizeEdge, Clean;
    var members := Krefs(ms);
    var revToItem := RevisionMap(ms);
    ghost var part := m => SdkPart(list, m, Krefs(ms), RevMap(ms));
    var edges: seq<Edge> := [];
    for i := 0 to |ms|
      invariant Elements(edges) == Gathered(ms[..i], part)
    {
      var m := ms[i];
      assert ms[..i + 1] == ms[..i] + [m];
      GatheredNext(ms[..i], m, part);
      if m.rev != "" {
        var raised;
        edges, raised := ReadListing(list(m.rev), m, members, revToItem, edges);
      }
    }
    assert ms[..|ms|] == ms;
    result := DedupeAndSortEdges(edges);
  }

  /** The same over HTTP: one list per member, joined at the end. */
  method GetTeamHttp(ms: seq<Member>, list: Listing) returns (result: Option<seq<Edge>>)
    ensures Answers(result, HttpEdges(ms, list))
  {
    hide Sortable, Contribution, Readable, NormalizeEdge, Clean;
    var members := Krefs(ms);
    var revToItem := RevisionMap(ms);
    var lists: seq<seq<Edge>> := [];
    for i := 0 to |ms|
      invariant |lists| == i
      invariant forall j :: 0 <= j < i ==> Elements(lists[j]) == HttpPart(list, ms[j], Krefs(ms), RevMap(ms))
    {
      var found: seq<Edge> := [];
      if ms[i].rev != "" {
        var raised;
        found, raised := ReadListing(list(ms[i].rev), ms[i], members, revToItem, []);
        if raised { found := []; }
      }
      lists := lists + [found];
    }
    ghost var part := m => HttpPart(list, m, Krefs(ms), RevMap(ms));
    var edges: seq<Edge> := [];
    for i := 0 to |lists|
      invariant Elements(edges) == Gathered(ms[..i], part)
    {
      assert ms[..i + 1] == ms[..i] + [ms[i]];
      GatheredNext(ms[..i], ms[i], part);
      ElementsAppend(edges, lists[i]);
      edges := edges + lists[i];
    }
    assert ms[..|ms|] == ms;
    result := DedupeAndSortEdges(edges);
  }

  lemma InGathered(ms: seq<Member>, part: Member -> set<Edge>)
    ensures forall e :: e in Gathered(ms, part) <==> exists m :: m in ms && e in part(m)
  {
  }

  lemma SdkMeans(ms: seq<Member>, list: Listing)
    ensures forall e :: e in SdkEdges(ms, list) <==> exists m :: m in ms && e in SdkPart(list, m, Krefs(ms), RevMap(ms))
  {
    hide SdkPart, Krefs, RevMap, Gathered;
    var part := m => SdkPart(list, m, Krefs(ms), RevMap(ms));
    InGathered(ms, part);
    forall m: Member ensures part(m) == SdkPart(list, m, Krefs(ms), RevMap(ms)) {}
    assert SdkEdges(ms, list) == Gathered(ms, part);
  }

  lemma HttpMeans(ms: seq<Member>, list: Listing)
    ensures forall e ::
              e in HttpEdges(ms, list) <==> exists m :: m in ms && e in HttpPart(list, m, Krefs(ms), RevMap(ms))
  {
    hide HttpPart, Krefs, RevMap, Gathered;
    var part := m => HttpPart(list, m, Krefs(ms), RevMap(ms));
    InGathered(ms, part);
    forall m: Member ensures part(m) == HttpPart(list, m, Krefs(ms), RevMap(ms)) {}
    assert HttpEdges(ms, list) == Gathered(ms, part);
  }

  // ---------- what the edge list depends on ----------

  /** Members that share a revision, its query aside, are the same item. */
  predicate Consistent(ms: seq<Member>) {
    forall m, n :: m in ms && n in ms && Listed(m) && Listed(n) && StripQuery(m.rev) == StripQuery(n.rev) ==>
      m.kref == n.kref
  }

  predicate Listed(m: Member) {
    m.rev != "" && m.kref != ""
  }

  lemma {:induction false} RevMapMeans(ms: seq<Member>)
    requires Consistent(ms)
    ensures forall m :: m in ms && Listed(m) ==>
              StripQuery(m.rev) in RevMap(ms) && RevMap(ms)[StripQuery(m.rev)] == m.kref
    ensures forall r :: r in RevMap(ms) ==> exists m :: m in ms && Listed(m) && StripQuery(m.rev) == r
  {
    hide StripQuery;
    if ms != [] {
      var front, last := ms[..|ms| - 1], ms[|ms| - 1];
      assert ms == front + [last];
      RevMapMeans(front);
    }
  }

  /** The revision map is the same for every order of the members. */
  lemma SameRevMap(ms: seq<Member>, ns: seq<Member>)
    requires Elements(ms) == Elements(ns) && Consistent(ms)
    ensures RevMap(ms) == RevMap(ns)
  {
    hide StripQuery, RevMap;
    assert forall m :: m in ms <==> m in ns by {
      forall m ensures m in ms <==> m in ns { assert m in Elements(ms) <==> m in Elements(ns); }
    }
    RevMapMeans(ms);
    RevMapMeans(ns);
  }

  /** The members' revisions have readable listings with the same entries. */
  predicate SameEntries(ms: seq<Member>, list: Listing, other: Listing) {
    forall m <- ms :: m.rev != "" ==> SameListing(list(m.rev), other(m.rev))
  }

  predicate SameListing(a: seq<RawEdge>, b: seq<RawEdge>) {
    Clean(a) && Clean(b) && Elements(a) == Elements(b)
  }

  lemma {:induction false} ReadableAll(raws: seq<RawEdge>)
    requires Clean(raws)
    ensures forall e :: e in Readable(raws) <==> Raw(e) in raws
  {
    if raws != [] {
      var first, rest := raws[0], raws[1..];
      assert raws == [first] + rest;
      assert first in raws && forall r <- rest :: r in raws;
      ReadableAll(rest);
      assert Readable(raws) == [first.edge] + Readable(rest);
    }
  }

  lemma SamePart(list: Listing, other: Listing, m: Member, members: set<string>, revToItem: map<string, string>)
    requires m.rev != "" ==> SameListing(list(m.rev), other(m.rev))
    ensures SdkPart(list, m, members, revToItem) == HttpPart(other, m, members, revToItem)
    ensures SdkPart(list, m, members, revToItem) == SdkPart(other, m, members, revToItem)
  {
    hide NormalizeEdge, Readable, Clean;
    if m.rev == "" { return; }
    var a, b := list(m.rev), other(m.rev);
    ReadableAll(a);
    ReadableAll(b);
    forall e ensures e in Readable(a) <==> e in Readable(b) { assert Raw(e) in Elements(a) <==> Raw(e) in Elements(b); }
  }

  /** Neither the order of the members, nor the order within a listing, nor the path taken changes
      the answer, as long as the listings of the members' revisions can be read. */
  lemma OneList(ms: seq<Member>, ns: seq<Member>, list: Listing, other: Listing,
                sdk: Option<seq<Edge>>, http: Option<seq<Edge>>)
    requires Elements(ms) == Elements(ns) && Consistent(ms) && SameEntries(ms, list, other)
    requires Answers(sdk, SdkEdges(ms, list)) && Answers(http, HttpEdges(ns, other))
    ensures sdk == http && SdkEdges(ms, list) == SdkEdges(ns, other)
  {
    hide SdkPart, HttpPart, SdkEdges, HttpEdges, RevMap, Consistent, SameListing, StrictlySorted, Sortable;
    SameRevMap(ms, ns);
    SameMembers(ms, ns);
    var members, revs := Krefs(ms), RevMap(ms);
    forall m | m in ms
      ensures SdkPart(list, m, members, revs) == HttpPart(other, m, members, revs) == SdkPart(other, m, members, revs)
    {
      SamePart(list, other, m, members, revs);
    }
    SdkMeans(ms, list);
    SdkMeans(ns, other);
    HttpMeans(ns, other);
    assert SdkEdges(ms, list) == SdkEdges(ns, other);
    assert SdkEdges(ms, list) == HttpEdges(ns, other);
    if sdk.Some? { OneSortedList(sdk.value, http.value); }
  }

  lemma SameMembers(ms: seq<Member>, ns: seq<Member>)
    requires Elements(ms) == Elements(ns)
    ensures Krefs(ms) == Krefs(ns) && forall m :: m in ms <==> m in ns
  {
    forall m ensures m in ms <==> m in ns { assert m in Elements(ms) <==> m in Elements(ns); }
  }

  /** One edge of the team whose type is a list or an object loses the whole team. */
  lemma OneKindLosesTheTeam(ms: seq<Member>, list: Listing, m: Member, raw: Edge, result: Option<seq<Edge>>)
    requires m in ms && m.rev != "" && raw in Readable(list(m.rev)) && raw.kind.Composite?
    requires NormalizeEdge(raw, Krefs(ms), RevMap(ms), m.kref).Some? && Answers(result, SdkEdges(ms, list))
    ensures result.None?
  {
    hide Krefs, RevMap, SdkEdges, Readable, ListOf, ItemOf;
    var e := NormalizeEdge(raw, Krefs(ms), RevMap(ms), m.kref).value;
    SdkMeans(ms, list);
    assert e in SdkPart(list, m, Krefs(ms), RevMap(ms));
  }

  /** Every edge joins two different members. */
  lemma EdgesJoinMembers(ms: seq<Member>, list: Listing, e: Edge)
    requires e in SdkEdges(ms, list) || e in HttpEdges(ms, list)
    ensures e.source in Krefs(ms) && e.target in Krefs(ms) && e.source != e.target
  {
  }

  /** A team as both paths build it: no revision without an item, one revision an item. */
  predicate Team(ms: seq<Member>) {
    forall m, n :: m in ms && n in ms ==> (m.rev != "" ==> m.kref != "") && (m.kref == n.kref ==> m.rev == n.rev)
  }

  predicate NothingBeforeTheBreak(ms: seq<Member>, list: Listing, m: Member) {
    !Clean(list(m.rev)) ==> SdkPart(list, m, Krefs(ms), RevMap(ms)) == {}
  }

  /** The HTTP path never finds more, and finds the same exactly when no listing has an edge of the
      team in front of a malformed entry. */
  lemma PathsAgree(ms: seq<Member>, list: Listing)
    requires Team(ms)
    ensures HttpEdges(ms, list) <= SdkEdges(ms, list)
    ensures HttpEdges(ms, list) == SdkEdges(ms, list) <==> forall m <- ms :: NothingBeforeTheBreak(ms, list, m)
    ensures Sortable(SdkEdges(ms, list)) ==> Sortable(HttpEdges(ms, list))
  {
    hide Contribution, Readable, Clean, RevMap, Krefs, SdkEdges, HttpEdges;
    SdkMeans(ms, list);
    HttpMeans(ms, list);
    if HttpEdges(ms, list) == SdkEdges(ms, list) {
      forall m | m in ms ensures NothingBeforeTheBreak(ms, list, m) {
        if !Clean(list(m.rev)) { BreakLoses(ms, list, m); }
      }
    }
  }

  lemma BreakLoses(ms: seq<Member>, list: Listing, m: Member)
    requires Team(ms) && m in ms && !Clean(list(m.rev)) && HttpEdges(ms, list) == SdkEdges(ms, list)
    ensures SdkPart(list, m, Krefs(ms), RevMap(ms)) == {}
  {
    hide Contribution, Readable, Clean, RevMap, Krefs, SdkEdges, HttpEdges;
    SdkMeans(ms, list);
    HttpMeans(ms, list);
    forall e | e in SdkPart(list, m, Krefs(ms), RevMap(ms)) ensures false {
      assert e in HttpEdges(ms, list);
      var n :| n in ms && e in HttpPart(list, n, Krefs(ms), RevMap(ms));
      SourceIsMember(Readable(list(m.rev)), m, Krefs(ms), RevMap(ms), e);
      SourceIsMember(Readable(list(n.rev)), n, Krefs(ms), RevMap(ms), e);
    }
  }

  lemma SourceIsMember(edges: seq<Edge>, m: Member, members: set<string>, revToItem: map<string, string>, e: Edge)
    requires e in Contribution(edges, m, members, revToItem)
    ensures m.kref != "" ==> e.source == m.kref
  {
    hide ItemOf;
  }

  // ---------- which raw edge is which ----------

  /** What stands before the first question mark. */
  lemma QueryStripped(base: string, query: string)
    requires '?' !in base
    ensures StripQuery(base) == base && StripQuery(base + "?" + query) == base
  {
    var s := base + "?" + query;
    forall j | 0 <= j < |base| ensures !OccursAt(s, "?", j) && !OccursAt(base, "?", j) {
      assert s[j..j + 1][0] == base[j] && base[j..j + 1][0] == base[j];
    }
    assert s[|base|..|base| + 1] == "?";
    IndexFromIs(s, "?", 0, |base|);
    assert s[..|base|] == base;
  }

  lemma StripTwice(s: string)
    ensures StripQuery(StripQuery(s)) == StripQuery(s)
  {
    match IndexOf(s, "?")
    case None =>
    case Some(i) =>
      assert s == s[..i] + s[i..];
      forall j | 0 <= j < i ensures !OccursAt(s[..i], "?", j) { OccursInPrefix(s[..i], s[i..], "?", j); }
  }

  /** An endpoint stands for the member one of whose revisions it names, whatever query it carries, and
      otherwise for itself without the query. */
  predicate StandsFor(ms: seq<Member>, endpoint: string, item: string) {
    (exists m <- ms :: Listed(m) && StripQuery(m.rev) == StripQuery(endpoint) && item == m.kref)
    || (item == StripQuery(endpoint) && forall m <- ms :: Listed(m) ==> StripQuery(m.rev) != StripQuery(endpoint))
  }

  lemma ItemMeans(ms: seq<Member>, endpoint: string, item: string)
    requires Consistent(ms) && endpoint != ""
    ensures StandsFor(ms, endpoint, item) <==> item == ItemOf(endpoint, RevMap(ms))
  {
    hide RevMap, StripQuery;
    RevMapMeans(ms);
    if endpoint in RevMap(ms) {
      var m :| m in ms && Listed(m) && StripQuery(m.rev) == endpoint;
      StripTwice(m.rev);
    }
  }

  /** A raw edge becomes an edge of the team exactly when its ends stand for two different members and it
      goes out of the one it was listed for; it keeps its direction and its type. */
  lemma EdgeExactly(ms: seq<Member>, raw: Edge, m: Member, e: Edge)
    requires Consistent(ms)
    ensures NormalizeEdge(raw, Krefs(ms), RevMap(ms), m.kref) == Some(e)
            <==> && raw.source != "" && raw.target != "" && e.kind == raw.kind
                 && StandsFor(ms, raw.source, e.source) && StandsFor(ms, raw.target, e.target)
                 && e.source in Krefs(ms) && e.target in Krefs(ms) && e.source != e.target
                 && (m.kref == "" || e.source == m.kref)
  {
    hide ItemOf, RevMap, Krefs, StandsFor, Consistent;
    if raw.source != "" && raw.target != "" {
      ItemMeans(ms, raw.source, e.source);
      ItemMeans(ms, raw.target, e.target);
    }
  }

  /** So an edge that the store lists from one member's revision to another's is found. */
  lemma ListedEdgeIsFound(ms: seq<Member>, list: Listing, m: Member, n: Member, raw: Edge)
    requires Consistent(ms) && m in ms && n in ms && Listed(m) && Listed(n) && m.kref != n.kref
    requires raw in Readable(list(m.rev)) && raw.source != "" && raw.target != ""
    requires StripQuery(raw.source) == StripQuery(m.rev) && StripQuery(raw.target) == StripQuery(n.rev)
    ensures Edge(m.kref, n.kref, raw.kind) in SdkEdges(ms, list)
    ensures Clean(list(m.rev)) ==> Edge(m.kref, n.kref, raw.kind) in HttpEdges(ms, list)
  {
    hide Readable, Clean, RevMap, StripQuery, NormalizeEdge, SdkEdges, HttpEdges;
    var e := Edge(m.kref, n.kref, raw.kind);
    EdgeExactly(ms, raw, m, e);
    SdkMeans(ms, list);
    HttpMeans(ms, list);
    assert e in SdkPart(list, m, Krefs(ms), RevMap(ms));
    if Clean(list(m.rev)) { assert e in HttpPart(list, m, Krefs(ms), RevMap(ms)); }
  }
}
