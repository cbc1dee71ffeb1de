/** The session journal and its rotation: the live file, its numbered backups, and what is kept of
    everything ever recorded. */
module JournalRotation {
  import opened Text

  /** A file is its lines. File 0 is the live journal, file i > 0 the backup `.i`. */
  type Files = map<nat, seq<string>>

  function Content(files: Files, i: nat): seq<string> {
    if i in files then files[i] else []
  }

  /** All kept lines, oldest backup first, live file last. */
  function Kept(files: Files, top: nat): seq<string> {
    if top == 0 then Content(files, 0) else Content(files, top) + Kept(files, top - 1)
  }

  function Size(lines: seq<string>): nat {
    if lines == [] then 0 else Size(lines[..|lines| - 1]) + |lines[|lines| - 1]|
  }

  /** `maxBackups` is any number the configuration holds; `limit` is the size that triggers a
      rotation. */
  datatype Config = Config(maxBackups: int, limit: nat)

  /** The highest backup number ever used. */
  function Top(c: Config): nat {
    if c.maxBackups < 1 then 1 else c.maxBackups
  }

  datatype State = State(files: Files, recorded: seq<string>, dropped: seq<string>)

  /** What happens to a journal. `failing` are the numbers of the files whose operation fails. */
  datatype Event =
    | Record(line: string, written: bool)
    | Check(sized: bool, failing: set<nat>, probed: bool)

  /** The number of the first file operation that fails, counting down from `i`; -1 if none. */
  function Stop(files: Files, i: int, failing: set<nat>): (r: int)
    requires i >= -1
    ensures -1 <= r <= i
    decreases i + 1
  {
    if i == -1 then -1
    else if i in failing && (i == 0 || i in files) then i
    else Stop(files, i - 1, failing)
  }

  /** Files above `stop` have moved one number up; number `top` is gone. */
  function Shifted(files: Files, top: nat, stop: int): Files
    requires stop >= -1
  {
    map j: nat | j <= top && Occupied(files, stop, j) :: files[Origin(stop, j)]
  }

  predicate Occupied(files: Files, stop: int, j: nat)
    requires stop >= -1
  {
    j != stop + 1 && Origin(stop, j) in files
  }

  function Origin(stop: int, j: nat): nat
    requires stop >= -1
  {
    if j <= stop + 1 then j else j - 1
  }

  /** The files and the lines lost after a rotation. */
  function Rotated(c: Config, files: Files, failing: set<nat>): (Files, seq<string>) {
    if c.maxBackups >= 1 then
      var stop := Stop(files, c.maxBackups, failing);
      (Shifted(files, Top(c), stop), if stop < c.maxBackups then Content(files, Top(c)) else [])
    else if 0 in failing then (files, [])
    else (Shifted(files, 1, -1), Content(files, 1))
  }

  function Step(c: Config, s: State, e: Event): State {
    match e
    case Record(line, written) =>
      if written then State(s.files[0 := Content(s.files, 0) + [line]], s.recorded + [line], s.dropped) else s
    case Check(sized, failing, probed) =>
      if 0 !in s.files || !sized then s
      else
        var (files, lost) := if Size(s.files[0]) >= c.limit then Rotated(c, s.files, failing) else (s.files, []);
        State(if probed && 0 !in files then files[0 := []] else files, s.recorded, s.dropped + lost)
  }

  function Run(c: Config, s: State, es: seq<Event>): State {
    if es == [] then s else Step(c, Run(c, s, es[..|es| - 1]), es[|es| - 1])
  }

  // ---------- the program ----------

  class Journal {
    const config: Config
    var files: Files
    ghost var recorded: seq<string>
    ghost var dropped: seq<string>
    /** Renames that landed on an existing file. */
    ghost var overwritten: nat

    ghost function Now(): State
      reads this
    {
      State(files, recorded, dropped)
    }

    /** No backup has a number above the highest one in use. */
    ghost predicate Valid()
      reads this
    {
      Bounded(config, files)
    }

    constructor (config: Config)
      ensures this.config == config && Now() == State(map[], [], []) && overwritten == 0
    {
      this.config := config;
      files, recorded, dropped, overwritten := map[], [], [], 0;
    }

    method Append(line: string, written: bool) returns (raised: bool)
      modifies this
      ensures Now() == Step(config, old(Now()), Record(line, written))
      ensures raised == !written && overwritten == old(overwritten)
    {
      if !written { return true; }
      files := files[0 := Content(files, 0) + [line]];
      recorded := recorded + [line];
      return false;
    }

    method Remove(i: nat)
      requires i in files
      modifies `files, `dropped
      ensures files == old(files) - {i} && dropped == old(dropped) + old(files)[i]
    {
      dropped := dropped + files[i];
      files := files - {i};
    }

    method Rename(src: nat, dst: nat)
      requires src in files && src != dst
      modifies `files, `dropped, `overwritten
      ensures files == old(files)[dst := old(files)[src]] - {src}
      ensures dropped == old(dropped) + Content(old(files), dst)
      ensures overwritten == old(overwritten) + if dst in old(files) then 1 else 0
    {
      if dst in files { overwritten := overwritten + 1; }
      dropped := dropped + Content(files, dst);
      files := files[dst := files[src]] - {src};
    }

    /** Shifts the backups up from the oldest down and moves the live file to backup 1; the first
        failing operation ends it. With at least one backup allowed no rename lands on a file,
        whatever gaps earlier failures have left. */
    method Rotate(failing: set<nat>) returns (completed: bool)
      requires Valid() && 0 in files
      modifies `files, `dropped, `overwritten
      ensures Valid()
      ensures (files, dropped) == (Rotated(config, old(files), failing).0,
                                   old(dropped) + Rotated(config, old(files), failing).1)
      ensures overwritten == old(overwritten)
                             + if config.maxBackups < 1 && completed && 1 in old(files) then 1 else 0
      ensures completed <==> 0 !in files
    {
      hide Kept, Size, Shifted, Stop, Rotated;
      ghost var start := files;
      ghost var lost := dropped;
      var max := config.maxBackups;
      var i := max;
      RotatedIs(config, start, failing, lost);
      if max >= 1 { ShiftedBounds(start, max, Stop(start, max, failing)); }
      while i > 0
        invariant max >= 1 ==> 0 <= i <= max && files == Shifted(start, max, i)
        invariant max < 1 ==> i == max && files == start
        invariant dropped == if i == max then lost else lost + Content(start, max)
        invariant overwritten == old(overwritten)
        invariant max >= 1 ==> Stop(start, max, failing) == Stop(start, i, failing)
      {
        OneShift(start, max, i);
        StopStep(start, i, failing);
        if i == max {
          if i in files {
            if i in failing { return false; }
            Remove(i);
          }
        } else if i in files {
          if i in failing { return false; }
          Rename(i, i + 1);
        }
        i := i - 1;
      }
      StopStep(start, 0, failing);
      if 0 in failing { return false; }
      OneShift(start, Top(config), 0);
      assert dropped + [] == dropped;
      Rename(0, 1);
      return true;
    }

    method CheckFiles(sized: bool, failing: set<nat>, probed: bool)
      requires Valid()
      modifies `files, `dropped, `overwritten
      ensures Valid() && Now() == Step(config, old(Now()), Check(sized, failing, probed))
      ensures config.maxBackups >= 1 ==> overwritten == old(overwritten)
    {
      hide Kept, Rotated, Size;
      if 0 !in files { return; }
      if !sized { return; }
      if Size(files[0]) >= config.limit {
        var completed := Rotate(failing);
      } else {
        assert dropped + [] == dropped;
      }
      if probed && 0 !in files {
        files := files[0 := []];
      }
    }
  }

  predicate Bounded(c: Config, files: Files) {
    forall i :: i in files ==> i <= Top(c)
  }

  /** The three ways a rotation ends. */
  lemma RotatedIs(c: Config, files: Files, failing: set<nat>, lost: seq<string>)
    requires Bounded(c, files) && 0 in files
    ensures Shifted(files, Top(c), Top(c)) == files && lost + [] == lost
    ensures c.maxBackups >= 1 ==>
              var stop := Stop(files, c.maxBackups, failing); var r := Rotated(c, files, failing);
              r == (Shifted(files, c.maxBackups, stop),
                    if stop < c.maxBackups then Content(files, c.maxBackups) else [])
    ensures c.maxBackups < 1 ==>
              Rotated(c, files, failing)
              == if 0 in failing then (files, []) else (files[1 := files[0]] - {0}, Content(files, 1))
  {
    hide Shifted, Stop, Content;
    NoShift(c, files);
    if c.maxBackups < 1 { OnlyMove(files); }
  }

  lemma NoShift(c: Config, files: Files)
    requires Bounded(c, files)
    ensures Shifted(files, Top(c), Top(c)) == files
  {
  }

  lemma OnlyMove(files: Files)
    requires 0 in files && forall i :: i in files ==> i <= 1
    ensures Shifted(files, 1, -1) == files[1 := files[0]] - {0}
  {
  }

  lemma ShiftedBounds(files: Files, top: nat, stop: int)
    requires stop >= -1 && 0 in files
    ensures forall i :: i in Shifted(files, top, stop) ==> i <= top
    ensures 0 in Shifted(files, top, stop) <==> stop != -1
  {
  }

  lemma StopStep(files: Files, i: nat, failing: set<nat>)
    ensures Stop(files, i, failing) == if i in failing && (i == 0 || i in files) then i else Stop(files, i - 1, failing)
    ensures Stop(files, -1, failing) == -1
  {
  }

  /** One file operation: number `i` leaves its place, to number `i + 1` unless that is above `top`. */
  lemma OneShift(files: Files, top: nat, i: nat)
    requires i <= top
    ensures var before := Shifted(files, top, i);
            i + 1 !in before
            && (i in before <==> i in files) && (i in files ==> before[i] == files[i])
            && (i !in files ==> Shifted(files, top, i - 1) == before)
            && (i in files && i == top ==> Shifted(files, top, i - 1) == before - {i})
            && (i in files && i < top ==> Shifted(files, top, i - 1) == before[i + 1 := before[i]] - {i})
  {
  }

  // ---------- nothing is lost but the oldest ----------

  /** What is kept, behind what was dropped, is everything ever recorded, in order. */
  predicate Books(c: Config, s: State) {
    Bounded(c, s.files) && s.recorded == s.dropped + Kept(s.files, Top(c))
  }

  lemma {:induction false} ShiftKept(files: Files, top: nat, stop: int, n: nat)
    requires -1 <= stop <= top && n <= top
    ensures Kept(Shifted(files, top, stop), n)
            == if n <= stop then Kept(files, n) else if n == 0 then [] else Kept(files, n - 1)
  {
    hide Shifted, Content;
    ShiftedContent(files, top, stop, n);
    if n > 0 {
      ShiftKept(files, top, stop, n - 1);
      var below := Kept(Shifted(files, top, stop), n - 1);
      assert [] + below == below;
      assert Content(files, n - 1) + [] == Content(files, n - 1);
    }
  }

  lemma ShiftedContent(files: Files, top: nat, stop: int, n: nat)
    requires -1 <= stop <= top && n <= top
    ensures Content(Shifted(files, top, stop), n)
            == if n <= stop then Content(files, n) else if n == stop + 1 then [] else Content(files, n - 1)
  {
  }

  /** A rotation loses the oldest backup or nothing, and keeps the rest in order. */
  lemma RotatedKept(c: Config, files: Files, failing: set<nat>)
    requires Bounded(c, files) && 0 in files
    ensures var r := Rotated(c, files, failing);
            Bounded(c, r.0) && Kept(files, Top(c)) == r.1 + Kept(r.0, Top(c))
            && (r.1 == Content(files, Top(c)) || (r.1 == [] && r.0 == files))
  {
    hide Shifted, Content;
    var k := Top(c);
    var stop := if c.maxBackups >= 1 then Stop(files, k, failing) else if 0 in failing then k else -1;
    NoShift(c, files);
    ShiftedBounds(files, k, stop);
    ShiftKept(files, k, stop, k);
    assert [] + Kept(files, k) == Kept(files, k);
  }

  lemma KeptWithLive(files: Files, live: seq<string>, n: nat)
    ensures Kept(files[0 := Content(files, 0) + live], n) == Kept(files, n) + live
  {
    hide Content;
    var more := files[0 := Content(files, 0) + live];
    SameBackups(files, more, n);
    if n > 0 {
      KeptWithLive(files, live, n - 1);
      Assoc(Content(files, n), Kept(files, n - 1), live);
    }
  }

  lemma SameBackups(files: Files, more: Files, n: nat)
    requires 0 in more && more == files[0 := more[0]]
    ensures n > 0 ==> Content(more, n) == Content(files, n)
    ensures Content(more, 0) == more[0]
  {
  }

  lemma StepBooks(c: Config, s: State, e: Event)
    requires Books(c, s)
    ensures Books(c, Step(c, s, e)) && s.dropped <= Step(c, s, e).dropped
  {
    hide Kept, Rotated, Size, Content;
    match e
    case Record(line, written) =>
      KeptWithLive(s.files, [line], Top(c));
      Assoc(s.dropped, Kept(s.files, Top(c)), [line]);
    case Check(sized, failing, probed) =>
      if 0 in s.files && sized {
        var r := if Size(s.files[0]) >= c.limit then Rotated(c, s.files, failing) else (s.files, []);
        if Size(s.files[0]) >= c.limit { RotatedKept(c, s.files, failing); }
        assert [] + Kept(s.files, Top(c)) == Kept(s.files, Top(c));
        Assoc(s.dropped, r.1, Kept(r.0, Top(c)));
        if 0 !in r.0 {
          NoLive(r.0);
          KeptWithLive(r.0, [], Top(c));
          assert Kept(r.0, Top(c)) + [] == Kept(r.0, Top(c));
        }
      }
  }

  lemma NoLive(files: Files)
    requires 0 !in files
    ensures files[0 := Content(files, 0) + []] == files[0 := []]
  {
    assert Content(files, 0) + [] == [];
  }

  /** Over every run of records, checks and rotations, whatever file operations fail on the way, the
      backups from oldest to newest followed by the live file are a suffix of all that was recorded. */
  lemma {:induction false} KeptIsSuffix(c: Config, s: State, es: seq<Event>)
    requires Books(c, s)
    ensures Books(c, Run(c, s, es)) && s.dropped <= Run(c, s, es).dropped
  {
    hide Books, Step;
    if es != [] {
      KeptIsSuffix(c, s, es[..|es| - 1]);
      StepBooks(c, Run(c, s, es[..|es| - 1]), es[|es| - 1]);
    }
  }

  lemma StartBooks(c: Config)
    ensures Books(c, State(map[], [], []))
  {
    EmptyKept(Top(c));
  }

  lemma {:induction false} EmptyKept(n: nat)
    ensures Kept(map[], n) == []
  {
    if n > 0 { EmptyKept(n - 1); }
  }

  // ---------- how much is kept ----------

  predicate BigEnough(c: Config, files: Files, i: nat) {
    i in files && Size(files[i]) >= c.limit
  }

  /** The backups are numbered without gaps, each was big enough to be rotated, and lines have been
      dropped only if all places are taken. */
  predicate Filled(c: Config, s: State) {
    (forall i :: i in s.files && i >= 1 ==> BigEnough(c, s.files, i))
    && (forall i :: i in s.files && i >= 2 ==> BigEnough(c, s.files, i - 1))
    && (s.dropped != [] ==> BigEnough(c, s.files, Top(c)))
  }

  predicate NothingFails(es: seq<Event>) {
    forall e <- es :: e.Check? ==> e.failing == {}
  }

  lemma RotatedFilled(c: Config, s: State)
    requires Bounded(c, s.files) && Filled(c, s) && 0 in s.files && BigEnough(c, s.files, 0)
    ensures var r := Rotated(c, s.files, {}); Filled(c, State(r.0, s.recorded, s.dropped + r.1))
  {
    hide Size, Kept;
    var k := Top(c);
    NoStop(s.files, k);
    var files := Shifted(s.files, k, -1);
    assert Rotated(c, s.files, {}) == (files, Content(s.files, k));
    forall i | i in files && i >= 1 ensures BigEnough(c, files, i) && (i >= 2 ==> BigEnough(c, files, i - 1)) {
      assert BigEnough(c, s.files, i - 1);
    }
    if s.dropped + Content(s.files, k) != [] {
      assert k in s.files;
      assert BigEnough(c, s.files, k - 1);
      assert k in files;
    }
  }

  lemma {:induction false} NoStop(files: Files, i: int)
    requires i >= -1
    ensures Stop(files, i, {}) == -1
    decreases i + 1
  {
    if i > -1 { NoStop(files, i - 1); }
  }

  lemma StepFilled(c: Config, s: State, e: Event)
    requires Books(c, s) && Filled(c, s) && (e.Check? ==> e.failing == {})
    ensures Filled(c, Step(c, s, e))
  {
    hide Size, Kept, Rotated, Books;
    match e
    case Record(line, written) => SameFilled(c, s, Step(c, s, e));
    case Check(sized, failing, probed) =>
      if 0 in s.files && sized {
        assert Bounded(c, s.files) by { BooksBounded(c, s); }
        if Size(s.files[0]) >= c.limit { RotatedFilled(c, s); }
        assert s.dropped + [] == s.dropped;
        var (files, lost) := if Size(s.files[0]) >= c.limit then Rotated(c, s.files, failing) else (s.files, []);
        SameFilled(c, State(files, s.recorded, s.dropped + lost), Step(c, s, e));
      }
  }

  lemma BooksBounded(c: Config, s: State)
    requires Books(c, s)
    ensures Bounded(c, s.files)
  {
  }

  lemma SameFilled(c: Config, s: State, t: State)
    requires Filled(c, s) && t.dropped == s.dropped
    requires forall i: nat :: i >= 1 ==> (i in t.files <==> i in s.files) && (i in s.files ==> t.files[i] == s.files[i])
    ensures Filled(c, t)
  {
  }

  lemma {:induction false} RunFilled(c: Config, es: seq<Event>)
    requires NothingFails(es)
    ensures Filled(c, Run(c, State(map[], [], []), es))
  {
    hide Step, Filled, Books;
    if es == [] {
      StartFilled(c);
    } else {
      var front, e := es[..|es| - 1], es[|es| - 1];
      assert e in es && forall x <- front :: x in es;
      RunFilled(c, front);
      StartBooks(c);
      KeptIsSuffix(c, State(map[], [], []), front);
      StepFilled(c, Run(c, State(map[], [], []), front), e);
    }
  }

  lemma StartFilled(c: Config)
    ensures Filled(c, State(map[], [], []))
  {
  }

  lemma {:induction false} SizeAppend(a: seq<string>, b: seq<string>)
    ensures Size(a + b) == Size(a) + Size(b)
  {
    if b == [] {
      assert a + [] == a;
    } else {
      assert (a + b)[..|a + b| - 1] == a + b[..|b| - 1];
      SizeAppend(a, b[..|b| - 1]);
    }
  }

  lemma FilledBelow(c: Config, s: State, n: nat)
    requires Filled(c, s) && n > 0 && BigEnough(c, s.files, n)
    ensures Size(Content(s.files, n)) >= c.limit && (n >= 2 ==> BigEnough(c, s.files, n - 1))
  {
    hide Size;
  }

  lemma Times(n: nat, limit: nat)
    requires n > 0
    ensures n * limit == (n - 1) * limit + limit
  {
  }

  lemma {:induction false} FullSize(c: Config, s: State, n: nat)
    requires Filled(c, s) && (n > 0 ==> BigEnough(c, s.files, n))
    ensures Size(Kept(s.files, n)) >= n * c.limit
  {
    hide Size, Filled, BigEnough, Content;
    if n > 0 {
      FilledBelow(c, s, n);
      FullSize(c, s, n - 1);
      SizeAppend(Content(s.files, n), Kept(s.files, n - 1));
      Times(n, c.limit);
    }
  }

  /** While no file operation fails, lines are given up only when every backup place holds a file
      that had reached the limit. */
  lemma DropsOnlyWhenFull(c: Config, es: seq<Event>)
    requires NothingFails(es)
    ensures var s := Run(c, State(map[], [], []), es);
            s.dropped != [] ==> Size(Kept(s.files, Top(c))) >= Top(c) * c.limit
  {
    hide Run, Size, Kept, Filled;
    RunFilled(c, es);
    var s := Run(c, State(map[], [], []), es);
    if s.dropped != [] {
      FilledTop(c, s);
      FullSize(c, s, Top(c));
    }
  }

  lemma FilledTop(c: Config, s: State)
    requires Filled(c, s) && s.dropped != []
    ensures BigEnough(c, s.files, Top(c))
  {
  }

  // ---------- exactly when a rotation loses lines ----------

  /** The oldest backup holds lines and can be removed. */
  predicate Losable(c: Config, files: Files, failing: set<nat>) {
    Content(files, Top(c)) != [] && if c.maxBackups >= 1 then Top(c) !in failing else 0 !in failing
  }

  /** Something below the oldest backup cannot be moved. */
  predicate Jammed(c: Config, files: Files, failing: set<nat>) {
    exists i :: 0 <= i < Top(c) && i in failing && (i == 0 || i in files)
  }

  lemma {:induction false} StopsWhere(files: Files, i: int, failing: set<nat>)
    requires i >= -1
    ensures var r := Stop(files, i, failing);
            if r == -1 then forall k :: 0 <= k <= i ==> k !in failing || (k != 0 && k !in files)
            else r in failing && (r == 0 || r in files)
    decreases i + 1
  {
    if i > -1 { StopsWhere(files, i - 1, failing); }
  }

  /** A rotation loses lines exactly when the oldest backup holds some and can be removed, and it is
      completed exactly when nothing it touches fails. */
  lemma RotationLoses(c: Config, files: Files, failing: set<nat>)
    requires Bounded(c, files) && 0 in files
    ensures var r := Rotated(c, files, failing);
            && (r.1 != [] <==> Losable(c, files, failing))
            && (0 in r.0 <==> Jammed(c, files, failing) || (c.maxBackups >= 1 && Top(c) in failing && Top(c) in files))
  {
    hide Shifted, Stop;
    var k := Top(c);
    if c.maxBackups >= 1 {
      StopsWhere(files, k, failing);
      StopStep(files, k, failing);
      ShiftedBounds(files, k, Stop(files, k, failing));
    } else {
      OnlyMove(files);
    }
  }

  /** So a rotation that leaves the live file in place costs a backup exactly when something below the
      oldest backup is stuck while the oldest one, holding lines, can still be removed. */
  lemma UnfinishedLoses(c: Config, files: Files, failing: set<nat>)
    requires Bounded(c, files) && 0 in files
    ensures var r := Rotated(c, files, failing);
            0 in r.0 && r.1 != []
            <==> c.maxBackups >= 1 && Losable(c, files, failing) && Jammed(c, files, failing)
  {
    hide Rotated;
    RotationLoses(c, files, failing);
    if c.maxBackups < 1 { assert Jammed(c, files, failing) ==> 0 in failing; }
  }

  /** The check rotates, and the rotation can remove lines. */
  predicate Costs(c: Config, s: State, e: Event) {
    e.Check? && e.sized && 0 in s.files && Size(s.files[0]) >= c.limit && Losable(c, s.files, e.failing)
  }

  predicate NoneCosts(c: Config, s: State, es: seq<Event>) {
    es == [] || (NoneCosts(c, s, es[..|es| - 1]) && !Costs(c, Run(c, s, es[..|es| - 1]), es[|es| - 1]))
  }

  lemma StepDrops(c: Config, s: State, e: Event)
    requires Books(c, s)
    ensures Step(c, s, e).dropped == s.dropped <==> !Costs(c, s, e)
  {
    hide Rotated, Size, Kept, Losable;
    if e.Check? && e.sized && 0 in s.files && Size(s.files[0]) >= c.limit {
      RotationLoses(c, s.files, e.failing);
    }
    assert s.dropped + [] == s.dropped;
  }

  /** Over every run nothing is dropped exactly when at each rotation the oldest place is empty or
      cannot be removed. */
  lemma {:induction false} NothingDropped(c: Config, s: State, es: seq<Event>)
    requires Books(c, s)
    ensures Run(c, s, es).dropped == s.dropped <==> NoneCosts(c, s, es)
  {
    hide Books, Step, Costs;
    if es != [] {
      var front, e := es[..|es| - 1], es[|es| - 1];
      NothingDropped(c, s, front);
      KeptIsSuffix(c, s, front);
      StepBooks(c, Run(c, s, front), e);
      StepDrops(c, Run(c, s, front), e);
    }
  }

  // ---------- a live file that cannot be moved ----------

  function Stuck(n: nat): seq<Event> {
    if n == 0 then [] else Stuck(n - 1) + [Check(true, {0}, true)]
  }

  predicate ClearUpTo(files: Files, n: nat) {
    forall i :: 1 <= i <= n ==> i !in files
  }

  /** One check whose only failure is the move of the live file. */
  lemma StuckOnce(c: Config, s: State, n: nat)
    requires c.maxBackups >= 1 && Books(c, s) && BigEnough(c, s.files, 0) && ClearUpTo(s.files, n)
    ensures var t := Step(c, s, Check(true, {0}, true));
            BigEnough(c, t.files, 0) && t.files[0] == s.files[0] && t.recorded == s.recorded
            && ClearUpTo(t.files, n + 1)
  {
    hide Size, Kept;
    StopsAtLive(s.files, c.maxBackups);
    var t := Step(c, s, Check(true, {0}, true));
    assert t.files == Shifted(s.files, Top(c), 0);
  }

  lemma {:induction false} StopsAtLive(files: Files, i: nat)
    ensures Stop(files, i, {0}) == 0
  {
    if i > 0 { StopsAtLive(files, i - 1); }
  }

  lemma {:induction false} StuckRun(c: Config, s: State, n: nat)
    requires c.maxBackups >= 1 && Books(c, s) && BigEnough(c, s.files, 0)
    ensures var t := Run(c, s, Stuck(n));
            BigEnough(c, t.files, 0) && t.files[0] == s.files[0] && t.recorded == s.recorded && ClearUpTo(t.files, n)
  {
    hide Step, BigEnough, Books;
    if n > 0 {
      StuckRun(c, s, n - 1);
      KeptIsSuffix(c, s, Stuck(n - 1));
      assert Stuck(n)[..n - 1] == Stuck(n - 1) by { StuckSize(n - 1); }
      StuckSize(n - 1);
      StuckOnce(c, Run(c, s, Stuck(n - 1)), n - 1);
    }
  }

  lemma {:induction false} StuckSize(n: nat)
    ensures |Stuck(n)| == n
  {
    if n > 0 { StuckSize(n - 1); }
  }

  lemma {:induction false} KeptClear(files: Files, n: nat)
    requires ClearUpTo(files, n)
    ensures Kept(files, n) == Content(files, 0)
  {
    if n > 0 {
      KeptClear(files, n - 1);
      assert [] + Kept(files, n - 1) == Kept(files, n - 1);
    }
  }

  /** A live file that cannot be moved costs every backup: each check still removes the oldest one
      and shifts the others, so after as many checks as there are places only the live file is left. */
  lemma StuckLosesBackups(c: Config, s: State, n: nat)
    requires c.maxBackups >= 1 && Books(c, s) && BigEnough(c, s.files, 0) && n >= Top(c)
    ensures var t := Run(c, s, Stuck(n));
            t.files == map[0 := s.files[0]] && s.recorded == t.dropped + s.files[0]
  {
    hide Run, Size, Kept, Stuck;
    StuckRun(c, s, n);
    KeptIsSuffix(c, s, Stuck(n));
    var t := Run(c, s, Stuck(n));
    KeptClear(t.files, Top(c));
  }
}
