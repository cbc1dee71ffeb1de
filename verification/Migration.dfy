/** Importing another assistant's memory: every entry becomes an item under a slug of its own. */
module Migration {
  import opened Text

  datatype Entry = Entry(key: string, content: string)

  /** What the import does not decide itself: how a key becomes a slug, whether the latest revision of
      an existing item can be read when entry `idx` is looked at, and the clock at that time. */
  datatype World = World(slugify: string -> string, readable: nat -> bool, now: nat -> nat)

  /** Items by slug, each with its latest content, and the counters. */
  datatype State = State(items: map<string, string>, imported: nat, skipped: nat, renamed: nat)

  const LAST: nat := 10000

  function Digit(n: nat): char
    requires n < 10
  {
    ('0' as int + n) as char
  }

  function Decimal(n: nat): string {
    if n < 10 then [Digit(n)] else Decimal(n / 10) + [Digit(n % 10)]
  }

  /** Different numbers are written differently. */
  lemma {:induction false} DecimalInjective(a: nat, b: nat)
    requires Decimal(a) == Decimal(b)
    ensures a == b
  {
    var s, t := Decimal(a), Decimal(b);
    DecimalEnd(a);
    DecimalEnd(b);
    if a >= 10 && b >= 10 {
      assert s[..|s| - 1] == Decimal(a / 10) && t[..|t| - 1] == Decimal(b / 10);
      DecimalInjective(a / 10, b / 10);
    }
  }

  lemma DecimalEnd(a: nat)
    ensures var s := Decimal(a); |s| >= 1 && (|s| == 1 <==> a < 10) && s[|s| - 1] == Digit(a % 10)
  {
    if a >= 10 { DecimalEnd(a / 10); }
  }

  function Numbered(base: string, i: nat): string {
    base + "-" + Decimal(i)
  }

  lemma NumberedInjective(base: string, i: nat, j: nat)
    requires Numbered(base, i) == Numbered(base, j)
    ensures i == j
  {
    hide Decimal;
    assert Numbered(base, i)[|base| + 1..] == Decimal(i);
    assert Numbered(base, j)[|base| + 1..] == Decimal(j);
    DecimalInjective(i, j);
  }

  /** The first free numbered slug from `i` on, or the one with the time in it. */
  function NextFree(base: string, items: map<string, string>, i: nat, now: nat): string
    decreases LAST + 1 - i
  {
    if i > LAST then Numbered(base, now)
    else if Numbered(base, i) !in items then Numbered(base, i)
    else NextFree(base, items, i + 1, now)
  }

  method NextAvailableSlug(base: string, existing: map<string, string>, now: nat) returns (slug: string)
    ensures slug == NextFree(base, existing, 2, now)
  {
    hide Decimal;
    for i := 2 to LAST + 1
      invariant NextFree(base, existing, 2, now) == NextFree(base, existing, i, now)
    {
      var candidate := Numbered(base, i);
      if candidate !in existing { return candidate; }
    }
    return Numbered(base, now);
  }

  predicate SomeFree(base: string, items: map<string, string>, from: nat) {
    exists i :: from <= i <= LAST && Numbered(base, i) !in items
  }

  /** The chosen slug is new exactly when one of the numbers is free or the time is. */
  lemma {:induction false} NextFreeIsNew(base: string, items: map<string, string>, i: nat, now: nat)
    ensures NextFree(base, items, i, now) !in items <==> SomeFree(base, items, i) || Numbered(base, now) !in items
    decreases LAST + 1 - i
  {
    hide Numbered;
    if i <= LAST && Numbered(base, i) in items {
      NextFreeIsNew(base, items, i + 1, now);
      assert SomeFree(base, items, i) <==> SomeFree(base, items, i + 1);
    }
  }

  function Slugs(base: string, from: nat): set<string> {
    set i | from <= i <= LAST :: Numbered(base, i)
  }

  lemma {:induction false} SlugCount(base: string, from: nat)
    requires from <= LAST + 1
    ensures |Slugs(base, from)| == LAST + 1 - from
    decreases LAST + 1 - from
  {
    hide Numbered;
    if from > LAST {
      assert Slugs(base, from) == {};
    } else {
      SlugCount(base, from + 1);
      assert Slugs(base, from) == Slugs(base, from + 1) + {Numbered(base, from)};
      if Numbered(base, from) in Slugs(base, from + 1) {
        var i :| from + 1 <= i <= LAST && Numbered(base, i) == Numbered(base, from);
        NumberedInjective(base, i, from);
      }
    }
  }

  lemma SubsetSize<T>(a: set<T>, b: set<T>)
    requires a <= b
    ensures |a| <= |b|
  {
    if a != {} {
      var x :| x in a;
      SubsetSize(a - {x}, b - {x});
    }
  }

  /** Fewer than 9999 items cannot take all numbers. */
  lemma RoomForOne(base: string, items: map<string, string>)
    requires |items| < LAST - 1
    ensures SomeFree(base, items, 2)
  {
    hide Numbered;
    if !SomeFree(base, items, 2) {
      SlugCount(base, 2);
      SubsetSize(Slugs(base, 2), items.Keys);
    }
  }

  // ---------- the import ----------

  function KeyOf(idx: nat, e: Entry): string {
    if Trim(e.key, RustSpace) == "" then "openclaw_" + Decimal(idx) else e.key
  }

  /** The slug an entry asks for. */
  function OwnSlug(w: World, idx: nat, e: Entry): string {
    var slug := w.slugify(KeyOf(idx, e));
    if slug == "" then "openclaw-" + Decimal(idx) else slug
  }

  predicate SameContent(a: string, b: string) {
    Trim(a, RustSpace) == Trim(b, RustSpace)
  }

  /** The content in the store is taken for the entry's own. What cannot be read is taken for empty. */
  predicate Matches(w: World, idx: nat, held: string, content: string) {
    SameContent(if w.readable(idx) then held else "", content)
  }

  /** The slug is taken, as far as can be read by the same content. */
  predicate Unchanged(w: World, items: map<string, string>, idx: nat, e: Entry) {
    var slug := OwnSlug(w, idx, e);
    slug in items && Matches(w, idx, items[slug], e.content)
  }

  function Place(w: World, items: map<string, string>, idx: nat, e: Entry): string {
    var slug := OwnSlug(w, idx, e);
    if slug in items then NextFree(slug, items, 2, w.now(idx)) else slug
  }

  function Step(w: World, s: State, idx: nat, e: Entry): State {
    if Unchanged(w, s.items, idx, e) then s.(skipped := s.skipped + 1)
    else State(s.items[Place(w, s.items, idx, e) := e.content], s.imported + 1, s.skipped,
               s.renamed + if OwnSlug(w, idx, e) in s.items then 1 else 0)
  }

  /** After the first `n` entries. */
  function After(w: World, items: map<string, string>, es: seq<Entry>, n: nat): State
    requires n <= |es|
  {
    if n == 0 then State(items, 0, 0, 0) else Step(w, After(w, items, es, n - 1), n - 1, es[n - 1])
  }

  lemma AfterNone(w: World, items: map<string, string>, es: seq<Entry>)
    ensures After(w, items, es, 0) == State(items, 0, 0, 0)
  {
  }

  /** One entry: skipped, imported under its own slug, or imported under another one. */
  lemma AfterNext(w: World, items: map<string, string>, es: seq<Entry>, n: nat)
    requires n < |es|
    ensures var s := After(w, items, es, n); var e := es[n]; var slug := OwnSlug(w, n, e);
            After(w, items, es, n + 1)
            == if slug !in s.items then State(s.items[slug := e.content], s.imported + 1, s.skipped, s.renamed)
               else if SameContent(if w.readable(n) then s.items[slug] else "", e.content)
               then s.(skipped := s.skipped + 1)
               else State(s.items[NextFree(slug, s.items, 2, w.now(n)) := e.content],
                          s.imported + 1, s.skipped, s.renamed + 1)
  {
    hide OwnSlug, SameContent, NextFree;
  }

  method ImportEntries(w: World, items: map<string, string>, es: seq<Entry>) returns (s: State)
    ensures s == After(w, items, es, |es|)
  {
    hide Trim, Decimal, NextFree, Numbered, Step, After;
    AfterNone(w, items, es);
    var existing := items;
    var imported, skipped, renamed := 0, 0, 0;
    for idx := 0 to |es|
      invariant After(w, items, es, idx) == State(existing, imported, skipped, renamed)
    {
      var e := es[idx];
      AfterNext(w, items, es, idx);
      var keyRaw := if Trim(e.key, RustSpace) == "" then "openclaw_" + Decimal(idx) else e.key;
      var slug := w.slugify(keyRaw);
      if slug == "" { slug := "openclaw-" + Decimal(idx); }
      if slug in existing {
        var content := if w.readable(idx) then existing[slug] else "";
        if Trim(content, RustSpace) == Trim(e.content, RustSpace) {
          skipped := skipped + 1;
          continue;
        }
        slug := NextAvailableSlug(slug, existing, w.now(idx));
        renamed := renamed + 1;
      }
      existing := existing[slug := e.content];
      imported := imported + 1;
    }
    return State(existing, imported, skipped, renamed);
  }

  // ---------- nothing is overwritten ----------

  /** Everything there before is still there, and each import added one item. */
  predicate Grown(before: map<string, string>, s: State, n: nat) {
    (forall k :: k in before ==> k in s.items && s.items[k] == before[k])
    && |s.items| == |before| + s.imported && s.imported + s.skipped == n && s.renamed <= s.imported
  }

  lemma StepAdds(w: World, s: State, idx: nat, e: Entry)
    requires |s.items| < LAST - 1
    ensures var slug := Place(w, s.items, idx, e);
            slug !in s.items && |s.items[slug := e.content]| == |s.items| + 1
  {
    hide Numbered, NextFree, Decimal;
    var own := OwnSlug(w, idx, e);
    if own in s.items {
      RoomForOne(own, s.items);
      NextFreeIsNew(own, s.items, 2, w.now(idx));
    }
    var slug := Place(w, s.items, idx, e);
    assert s.items[slug := e.content].Keys == s.items.Keys + {slug};
  }

  lemma StepGrows(w: World, before: map<string, string>, s: State, idx: nat, e: Entry, n: nat)
    requires Grown(before, s, n) && |before| + n < LAST - 1
    ensures Grown(before, Step(w, s, idx, e), n + 1)
  {
    hide Place, Unchanged, OwnSlug;
    StepAdds(w, s, idx, e);
  }

  lemma NothingGrown(items: map<string, string>)
    ensures Grown(items, State(items, 0, 0, 0), 0)
  {
  }

  /** As long as there is room for all entries, no entry replaces an item. */
  lemma {:induction false} ImportOnlyAdds(w: World, items: map<string, string>, es: seq<Entry>, n: nat)
    requires n <= |es| && |items| + n < LAST
    ensures Grown(items, After(w, items, es, n), n)
  {
    hide Step, Grown;
    if n == 0 {
      NothingGrown(items);
    } else {
      ImportOnlyAdds(w, items, es, n - 1);
      StepGrows(w, items, After(w, items, es, n - 1), n - 1, es[n - 1], n - 1);
    }
  }

  // ---------- importing again ----------

  /** What a run leaves behind for entry `idx`: its slug is taken, by other content or by its own. */
  predicate Settled(w: World, items: map<string, string>, idx: nat, e: Entry, differs: bool) {
    var slug := OwnSlug(w, idx, e);
    slug in items && (SameContent(items[slug], e.content) <==> !differs)
  }

  /** Entry `idx` finds other content under its own slug, whether or not that can be read. */
  predicate Differs(w: World, items: map<string, string>, es: seq<Entry>, idx: nat)
    requires idx < |es|
  {
    var before := After(w, items, es, idx).items;
    var slug := OwnSlug(w, idx, es[idx]);
    slug in before && !SameContent(before[slug], es[idx].content)
  }

  /** Entry `idx` was imported under another slug than its own. */
  predicate Moved(w: World, items: map<string, string>, es: seq<Entry>, idx: nat)
    requires idx < |es|
  {
    var before := After(w, items, es, idx).items;
    OwnSlug(w, idx, es[idx]) in before && !Unchanged(w, before, idx, es[idx])
  }

  function Movers(w: World, items: map<string, string>, es: seq<Entry>, n: nat): nat
    requires n <= |es|
  {
    if n == 0 then 0 else Movers(w, items, es, n - 1) + if Moved(w, items, es, n - 1) then 1 else 0
  }

  lemma RenamedNext(w: World, items: map<string, string>, es: seq<Entry>, n: nat)
    requires n < |es|
    ensures After(w, items, es, n + 1).renamed
            == After(w, items, es, n).renamed + if Moved(w, items, es, n) then 1 else 0
  {
    hide OwnSlug, Place, SameContent;
  }

  lemma {:induction false} RenamedAreMovers(w: World, items: map<string, string>, es: seq<Entry>, n: nat)
    requires n <= |es|
    ensures After(w, items, es, n).renamed == Movers(w, items, es, n)
  {
    hide Moved, Step;
    if n > 0 {
      RenamedAreMovers(w, items, es, n - 1);
      RenamedNext(w, items, es, n - 1);
    }
  }

  lemma StillSettled(w: World, items: map<string, string>, more: map<string, string>, idx: nat, e: Entry, differs: bool)
    requires Settled(w, items, idx, e, differs) && forall k :: k in items ==> k in more && more[k] == items[k]
    ensures Settled(w, more, idx, e, differs)
  {
    hide OwnSlug, SameContent;
  }

  lemma StepSettles(w: World, s: State, idx: nat, e: Entry)
    requires |s.items| < LAST - 1
    ensures var slug := OwnSlug(w, idx, e);
            Settled(w, Step(w, s, idx, e).items, idx, e, slug in s.items && !SameContent(s.items[slug], e.content))
  {
    hide OwnSlug, Trim, NextFree;
    StepAdds(w, s, idx, e);
  }

  predicate AllSettled(w: World, items: map<string, string>, start: map<string, string>, es: seq<Entry>, n: nat)
    requires n <= |es|
  {
    forall i :: 0 <= i < n ==> Settled(w, items, i, es[i], Differs(w, start, es, i))
  }

  predicate Kept(items: map<string, string>, more: map<string, string>) {
    forall k :: k in items ==> k in more && more[k] == items[k]
  }

  lemma StepKeeps(w: World, s: State, idx: nat, e: Entry)
    requires |s.items| < LAST - 1
    ensures Kept(s.items, Step(w, s, idx, e).items)
  {
    hide Place, Unchanged;
    StepAdds(w, s, idx, e);
  }

  lemma AllStill(w: World, items: map<string, string>, more: map<string, string>, start: map<string, string>,
                 es: seq<Entry>, n: nat)
    requires n <= |es| && AllSettled(w, items, start, es, n) && Kept(items, more)
    ensures AllSettled(w, more, start, es, n)
  {
  }

  lemma LastSettled(w: World, items: map<string, string>, es: seq<Entry>, n: nat)
    requires n < |es| && |items| + n + 1 < LAST
    ensures Settled(w, After(w, items, es, n + 1).items, n, es[n], Differs(w, items, es, n))
    ensures Kept(After(w, items, es, n).items, After(w, items, es, n + 1).items)
  {
    hide Settled, OwnSlug, SameContent, Step;
    RoomLeft(w, items, es, n);
    StepKeeps(w, After(w, items, es, n), n, es[n]);
    StepSettles(w, After(w, items, es, n), n, es[n]);
  }

  lemma {:induction false} RunSettles(w: World, items: map<string, string>, es: seq<Entry>, n: nat)
    requires n <= |es| && |items| + n < LAST
    ensures AllSettled(w, After(w, items, es, n).items, items, es, n)
  {
    hide Settled, Differs, After;
    if n > 0 {
      RunSettles(w, items, es, n - 1);
      LastSettled(w, items, es, n - 1);
      AllStill(w, After(w, items, es, n - 1).items, After(w, items, es, n).items, items, es, n - 1);
    }
  }

  lemma RoomLeft(w: World, items: map<string, string>, es: seq<Entry>, n: nat)
    requires n <= |es| && |items| + n < LAST
    ensures |After(w, items, es, n).items| <= |items| + n && Kept(items, After(w, items, es, n).items)
  {
    hide After;
    ImportOnlyAdds(w, items, es, n);
  }

  ghost predicate SameSlugs(w: World, again: World) {
    forall key :: again.slugify(key) == w.slugify(key)
  }

  /** The second run takes entry `idx` for a new one: the content under its slug can be read and is
      another, or cannot be read and the entry is not empty. */
  predicate ComesAgain(w: World, again: World, items: map<string, string>, es: seq<Entry>, idx: nat)
    requires idx < |es|
  {
    if again.readable(idx) then Differs(w, items, es, idx) else Trim(es[idx].content, RustSpace) != ""
  }

  function Repeats(w: World, again: World, items: map<string, string>, es: seq<Entry>, n: nat): nat
    requires n <= |es|
  {
    if n == 0 then 0
    else Repeats(w, again, items, es, n - 1) + if ComesAgain(w, again, items, es, n - 1) then 1 else 0
  }

  lemma SettledAgain(w: World, again: World, s: State, idx: nat, e: Entry, differs: bool)
    requires SameSlugs(w, again) && Settled(w, s.items, idx, e, differs)
    ensures var t := Step(again, s, idx, e);
            var comes := if again.readable(idx) then differs else Trim(e.content, RustSpace) != "";
            && t.imported == s.imported + (if comes then 1 else 0)
            && t.renamed == s.renamed + (if comes then 1 else 0)
  {
    hide Place, Trim, Decimal;
    TrimNothing();
  }

  lemma TrimNothing()
    ensures Trim("", RustSpace) == ""
  {
  }

  // ---------- when the first import renames nothing ----------

  /** Entry `j` is the first to ask for the slug. */
  predicate FirstWith(w: World, es: seq<Entry>, j: nat, slug: string) {
    j < |es| && OwnSlug(w, j, es[j]) == slug && forall k :: 0 <= k < j ==> OwnSlug(w, k, es[k]) != slug
  }

  /** The content of entry `idx` matches that of the item that has its slug, or else of the first entry
      before it that asks for it. */
  predicate Peaceful(w: World, items: map<string, string>, es: seq<Entry>, idx: nat)
    requires idx < |es|
  {
    var slug := OwnSlug(w, idx, es[idx]);
    if slug in items then Matches(w, idx, items[slug], es[idx].content)
    else forall j: nat :: j < idx && FirstWith(w, es, j, slug) ==> Matches(w, idx, es[j].content, es[idx].content)
  }

  predicate AllPeaceful(w: World, items: map<string, string>, es: seq<Entry>, n: nat)
    requires n <= |es|
  {
    forall i :: 0 <= i < n ==> Peaceful(w, items, es, i)
  }

  /** The items while nothing has been renamed: those there before, and for each own slug the content of
      the first entry that asked for it. */
  predicate OwnPlaces(w: World, items: map<string, string>, now: map<string, string>, es: seq<Entry>, n: nat)
    requires n <= |es|
  {
    Kept(items, now)
    && (forall i :: 0 <= i < n ==> OwnSlug(w, i, es[i]) in now)
    && (forall k :: k in now && k !in items ==>
                      exists j: nat :: j < n && FirstWith(w, es, j, k) && now[k] == es[j].content)
  }

  /** With its own places taken, an entry moves exactly when it is not peaceful. */
  lemma MovedOrPeaceful(w: World, items: map<string, string>, now: map<string, string>, es: seq<Entry>, n: nat)
    requires n < |es| && OwnPlaces(w, items, now, es, n)
    ensures var slug := OwnSlug(w, n, es[n]);
            (slug in now ==> Matches(w, n, now[slug], es[n].content)) <==> Peaceful(w, items, es, n)
  {
    hide OwnSlug, Matches;
    var slug := OwnSlug(w, n, es[n]);
    if slug in now && slug !in items {
      var i: nat :| i < n && FirstWith(w, es, i, slug) && now[slug] == es[i].content;
      assert forall j: nat :: FirstWith(w, es, j, slug) ==> i == j;
    }
  }

  /** An entry that does not move is skipped or gets its own slug. */
  lemma StaysOwn(w: World, s: State, n: nat, e: Entry)
    requires var slug := OwnSlug(w, n, e); slug in s.items ==> Matches(w, n, s.items[slug], e.content)
    ensures var slug := OwnSlug(w, n, e);
            Step(w, s, n, e).items == if slug in s.items then s.items else s.items[slug := e.content]
  {
    hide OwnSlug, NextFree, Matches;
  }

  lemma NextOwnPlace(w: World, items: map<string, string>, s: State, es: seq<Entry>, n: nat)
    requires n < |es| && OwnPlaces(w, items, s.items, es, n)
    requires var slug := OwnSlug(w, n, es[n]); slug in s.items ==> Matches(w, n, s.items[slug], es[n].content)
    ensures OwnPlaces(w, items, Step(w, s, n, es[n]).items, es, n + 1)
  {
    hide OwnSlug, Step, Matches;
    var slug := OwnSlug(w, n, es[n]);
    var next := Step(w, s, n, es[n]).items;
    StaysOwn(w, s, n, es[n]);
    forall k | k in next && k !in items
      ensures exists j: nat :: j < n + 1 && FirstWith(w, es, j, k) && next[k] == es[j].content
    {
      if k in s.items {
        var j: nat :| j < n && FirstWith(w, es, j, k) && s.items[k] == es[j].content;
      } else {
        assert FirstWith(w, es, n, k);
      }
    }
  }

  lemma {:induction false} RenamesNothing(w: World, items: map<string, string>, es: seq<Entry>, n: nat)
    requires n <= |es|
    ensures After(w, items, es, n).renamed == 0 <==> AllPeaceful(w, items, es, n)
    ensures After(w, items, es, n).renamed == 0 ==> OwnPlaces(w, items, After(w, items, es, n).items, es, n)
  {
    hide OwnSlug, Peaceful, Step, OwnPlaces;
    if n == 0 {
      NoPlaces(w, items, es);
    } else {
      var before := After(w, items, es, n - 1);
      RenamesNothing(w, items, es, n - 1);
      RenamedNext(w, items, es, n - 1);
      if before.renamed == 0 {
        MovedOrPeaceful(w, items, before.items, es, n - 1);
        MovedMeans(w, items, es, n - 1);
        if Peaceful(w, items, es, n - 1) { NextOwnPlace(w, items, before, es, n - 1); }
      }
    }
  }

  lemma NoPlaces(w: World, items: map<string, string>, es: seq<Entry>)
    ensures OwnPlaces(w, items, items, es, 0)
  {
  }

  lemma MovedMeans(w: World, items: map<string, string>, es: seq<Entry>, n: nat)
    requires n < |es|
    ensures var slug := OwnSlug(w, n, es[n]); var now := After(w, items, es, n).items;
            Moved(w, items, es, n) <==> slug in now && !Matches(w, n, now[slug], es[n].content)
  {
    hide OwnSlug, Matches, After;
  }

  /** Importing the same entries again brings in exactly those that come again, under new names, and
      changes nothing precisely when there are none. */
  lemma ImportAgain(w: World, again: World, items: map<string, string>, es: seq<Entry>)
    requires SameSlugs(w, again) && |items| + 2 * |es| < LAST
    ensures var once := After(w, items, es, |es|); var twice := After(again, once.items, es, |es|);
            && twice.imported == twice.renamed == Repeats(w, again, items, es, |es|)
            && (twice.items == once.items <==> forall i :: 0 <= i < |es| ==> !ComesAgain(w, again, items, es, i))
  {
    hide After, Repeats, ComesAgain, SameSlugs;
    var once := After(w, items, es, |es|);
    RoomLeft(w, items, es, |es|);
    NoRepeats(w, again, items, es, |es|);
    AgainUpTo(w, again, items, es, |es|);
    SecondAdds(again, once.items, es);
  }

  lemma {:induction false} NoRepeats(w: World, again: World, items: map<string, string>, es: seq<Entry>, n: nat)
    requires n <= |es|
    ensures Repeats(w, again, items, es, n) == 0 <==> forall i :: 0 <= i < n ==> !ComesAgain(w, again, items, es, i)
  {
    hide ComesAgain;
    if n > 0 { NoRepeats(w, again, items, es, n - 1); }
  }

  /** While everything can be read, these are the entries renamed the first time. */
  lemma {:induction false} RepeatsAreRenamed(w: World, again: World, items: map<string, string>, es: seq<Entry>, n: nat)
    requires n <= |es| && forall i :: 0 <= i < n ==> w.readable(i) && again.readable(i)
    ensures Repeats(w, again, items, es, n) == After(w, items, es, n).renamed
  {
    hide OwnSlug, SameContent, Step;
    if n > 0 {
      RepeatsAreRenamed(w, again, items, es, n - 1);
      RenamedNext(w, items, es, n - 1);
    }
  }

  lemma SecondAdds(w: World, items: map<string, string>, es: seq<Entry>)
    requires |items| + |es| < LAST
    ensures var t := After(w, items, es, |es|); t.items == items <==> t.imported == 0
  {
    hide After;
    ImportOnlyAdds(w, items, es, |es|);
    SameOrLarger(items, After(w, items, es, |es|).items);
  }

  lemma SameOrLarger(a: map<string, string>, b: map<string, string>)
    requires forall k :: k in a ==> k in b && b[k] == a[k]
    ensures a == b <==> |a| == |b|
  {
    if |a| == |b| { SubsetEqual(a.Keys, b.Keys); }
  }

  lemma SubsetEqual<T>(a: set<T>, b: set<T>)
    requires a <= b && |a| == |b|
    ensures a == b
  {
    if a != b {
      var x :| x in b && x !in a;
      SubsetSize(a, b - {x});
    }
  }

  lemma {:induction false} AgainUpTo(w: World, again: World, items: map<string, string>, es: seq<Entry>, n: nat)
    requires SameSlugs(w, again) && n <= |es| && |items| + 2 * |es| < LAST
    ensures var t := After(again, After(w, items, es, |es|).items, es, n);
            t.imported == t.renamed == Repeats(w, again, items, es, n)
  {
    hide Settled, Step, Differs, Trim;
    if n > 0 {
      var once := After(w, items, es, |es|).items;
      AgainUpTo(w, again, items, es, n - 1);
      var s := After(again, once, es, n - 1);
      SettledLater(w, again, items, es, n - 1);
      SettledAgain(w, again, s, n - 1, es[n - 1], Differs(w, items, es, n - 1));
    }
  }

  /** An entry settled by the first run is still settled when the second run comes to it. */
  lemma SettledLater(w: World, again: World, items: map<string, string>, es: seq<Entry>, n: nat)
    requires n < |es| && |items| + 2 * |es| < LAST
    ensures var once := After(w, items, es, |es|).items;
            Settled(w, After(again, once, es, n).items, n, es[n], Differs(w, items, es, n))
  {
    hide Settled, After, Differs;
    var once := After(w, items, es, |es|).items;
    RunSettles(w, items, es, |es|);
    RoomLeft(w, items, es, |es|);
    RoomLeft(again, once, es, n);
    StillSettled(w, once, After(again, once, es, n).items, n, es[n], Differs(w, items, es, n));
  }

  // ---------- which slug is chosen ----------

  /** The number that a row of digits is. */
  function ValueOf(s: string): int {
    if s == "" then 0 else 10 * ValueOf(s[..|s| - 1]) + (s[|s| - 1] as int - '0' as int)
  }

  lemma {:induction false} DecimalReads(n: nat)
    ensures ValueOf(Decimal(n)) == n
  {
    var s := Decimal(n);
    if n >= 10 {
      DecimalReads(n / 10);
      assert s[..|s| - 1] == Decimal(n / 10) && s[|s| - 1] == Digit(n % 10);
    } else {
      assert s[..0] == "" && s[0] == Digit(n);
    }
  }

  /** The slug with the first number from `i` to 10000 that no item has, or with the time in it when all are
      taken. */
  lemma {:induction false} NextFreeIsFirst(base: string, items: map<string, string>, i: nat, now: nat)
    ensures var slug := NextFree(base, items, i, now);
            || (slug == base + "-" + Decimal(now)
                && forall k :: i <= k <= 10000 ==> base + "-" + Decimal(k) in items)
            || exists j :: && i <= j <= 10000 && slug == base + "-" + Decimal(j) && slug !in items
                           && forall k :: i <= k < j ==> base + "-" + Decimal(k) in items
    decreases LAST + 1 - i
  {
    hide Decimal;
    var slug := NextFree(base, items, i, now);
    if i <= LAST && Numbered(base, i) in items {
      NextFreeIsFirst(base, items, i + 1, now);
      assert base + "-" + Decimal(i) in items;
    } else if i <= LAST {
      assert slug == base + "-" + Decimal(i) && slug !in items;
    }
  }

  /** An entry asks for the slug of its key; without a key, or without a slug for it, its number stands in. */
  lemma OwnSlugMeans(w: World, idx: nat, e: Entry)
    ensures var key := if Trim(e.key, RustSpace) == "" then "openclaw_" + Decimal(idx) else e.key;
            && OwnSlug(w, idx, e) != ""
            && (w.slugify(key) != "" ==> OwnSlug(w, idx, e) == w.slugify(key))
            && (w.slugify(key) == "" ==> OwnSlug(w, idx, e) == "openclaw-" + Decimal(idx))
  {
    hide Trim, Decimal;
  }
}
