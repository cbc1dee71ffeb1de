/** Relationship types over other scripts: what upper and lower case must be like for the normalising to
    be idempotent. */
module Casing {
  import opened Text
  import opened Ontology

  /** The word characters and the case mappings of a script, as the host language has them; a mapping
      may change the length of a text. */
  datatype Script = Script(isWord: char -> bool, lower: string -> string, upper: string -> string)

  function Cut(isWord: char -> bool): Space {
    c => !isWord(c)
  }

  function KeyIn(sc: Script, text: string): string {
    var key := Collapse(sc.lower(Trim(text, PySpace)), Cut(sc.isWord), ' ');
    Trim(Collapse(key, PySpace, ' '), PySpace)
  }

  /** The type of a text that is no alias. */
  function TypeIn(sc: Script, text: string): string {
    var token := sc.upper(Trim(Collapse(Trim(text, PySpace), Cut(sc.isWord), '_'), Underscore));
    if token == "" then sc.upper(Trim(text, PySpace)) else token
  }

  function NormalizeIn(sc: Script, tables: Tables, raw: Option<string>): (string, bool) {
    var text := match raw case None => "" case Some(r) => Trim(r, PySpace);
    if text == "" then (DEFAULT, true)
    else if KeyIn(sc, text) in tables.aliases then (tables.aliases[KeyIn(sc, text)], true)
    else (TypeIn(sc, text), TypeIn(sc, text) in tables.types)
  }

  /** The script modelled above. */
  const PLAIN: Script := Script(IsWord, Lower, Upper)

  lemma {:induction false} CollapseSame(s: string, a: Space, b: Space, sep: char)
    requires forall c :: a(c) == b(c)
    ensures Collapse(s, a, sep) == Collapse(s, b, sep)
  {
    if s != "" { CollapseSame(s[1..], a, b, sep); }
  }

  lemma PlainIsNormalize(tables: Tables, raw: Option<string>)
    ensures NormalizeIn(PLAIN, tables, raw) == Normalize(tables, raw)
  {
    hide Trim, Collapse;
    if raw.Some? {
      var text := Trim(raw.value, PySpace);
      var t := Trim(text, PySpace);
      CollapseSame(Lower(t), Separates, Cut(PLAIN.isWord), ' ');
      CollapseSame(t, Separates, Cut(PLAIN.isWord), '_');
      TrimTwice(raw.value);
    }
  }

  /** The casing leaves the type of this text in place: folded again it has the text's own key, and is
      itself. */
  predicate CasingFits(sc: Script, text: string) {
    var once := TypeIn(sc, text);
    Trim(once, PySpace) != "" && KeyIn(sc, once) == KeyIn(sc, text) && TypeIn(sc, once) == once
  }

  predicate IdempotentIn(sc: Script, tables: Tables, text: string) {
    var once := NormalizeIn(sc, tables, Some(text));
    NormalizeIn(sc, tables, Some(once.0)) == once
  }

  lemma TrimmedIn(sc: Script, text: string)
    ensures var t := Trim(text, PySpace);
            Trim(t, PySpace) == t && KeyIn(sc, t) == KeyIn(sc, text) && TypeIn(sc, t) == TypeIn(sc, text)
  {
    hide Collapse;
    TrimTwice(text);
  }

  /** Over any script: a text is normalised idempotently by every table that does not list it exactly
      when the casing fits it. Upper-casing a letter into one with a combining mark does not fit, nor
      does an upper case whose lower case is another letter. */
  lemma CasingIsExact(sc: Script, text: string)
    requires Trim(text, PySpace) != ""
    ensures (forall tables: Tables :: KeyIn(sc, text) !in tables.aliases ==> IdempotentIn(sc, tables, text))
            <==> CasingFits(sc, text)
  {
    hide Trim, KeyIn, TypeIn;
    var once := TypeIn(sc, text);
    TrimmedIn(sc, text);
    TrimmedIn(sc, once);
    if CasingFits(sc, text) {
      forall tables: Tables | KeyIn(sc, text) !in tables.aliases ensures IdempotentIn(sc, tables, text) {}
    }
    if forall tables: Tables :: KeyIn(sc, text) !in tables.aliases ==> IdempotentIn(sc, tables, text) {
      NoAliasesFit(sc, text);
      OneAliasFits(sc, text);
    }
  }

  lemma NoAliasesFit(sc: Script, text: string)
    requires Trim(text, PySpace) != ""
    requires IdempotentIn(sc, Tables({}, map[]), text)
    ensures var once := TypeIn(sc, text); Trim(once, PySpace) != "" && TypeIn(sc, once) == once
  {
    hide Trim, KeyIn, TypeIn;
    TrimmedIn(sc, text);
    TrimmedIn(sc, TypeIn(sc, text));
  }

  lemma OneAliasFits(sc: Script, text: string)
    requires Trim(text, PySpace) != "" && Trim(TypeIn(sc, text), PySpace) != ""
    requires forall tables: Tables :: KeyIn(sc, text) !in tables.aliases ==> IdempotentIn(sc, tables, text)
    ensures KeyIn(sc, TypeIn(sc, text)) == KeyIn(sc, text)
  {
    hide Trim, KeyIn, TypeIn;
    var once := TypeIn(sc, text);
    TrimmedIn(sc, text);
    TrimmedIn(sc, once);
    var other := Tables({}, map[KeyIn(sc, once) := once]);
    assert KeyIn(sc, text) !in other.aliases ==> IdempotentIn(sc, other, text);
  }

  /** Over ASCII and Hangul the casing fits every text. */
  lemma PlainFits(text: string)
    requires Trim(text, PySpace) != ""
    ensures CasingFits(PLAIN, text)
  {
    hide Trim, KeyIn, TypeIn, CasingFits, Normalize, NormalizeIn;
    forall tables: Tables | KeyIn(PLAIN, text) !in tables.aliases ensures IdempotentIn(PLAIN, tables, text) {
      PlainIdempotent(tables, text);
    }
    CasingIsExact(PLAIN, text);
  }

  lemma PlainIdempotent(tables: Tables, text: string)
    requires Trim(text, PySpace) != "" && KeyIn(PLAIN, text) !in tables.aliases
    ensures IdempotentIn(PLAIN, tables, text)
  {
    hide Trim, Collapse, Normalize, NormalizeIn, AliasKey;
    var t := Trim(text, PySpace);
    PlainKey(text);
    PlainKey(t);
    TrimmedIn(PLAIN, text);
    UnknownStays(tables, t);
    PlainIsNormalize(tables, Some(text));
    PlainIsNormalize(tables, Some(t));
    PlainIsNormalize(tables, Some(Normalize(tables, Some(t)).0));
    SameTrim(tables, text);
  }

  lemma PlainKey(text: string)
    ensures KeyIn(PLAIN, text) == AliasKey(text)
  {
    hide Trim, Collapse;
    CollapseSame(Lower(Trim(text, PySpace)), Separates, Cut(PLAIN.isWord), ' ');
  }

  lemma SameTrim(tables: Tables, text: string)
    ensures Normalize(tables, Some(Trim(text, PySpace))) == Normalize(tables, Some(text))
  {
    hide Trim, Collapse;
    TrimTwice(text);
  }

  // ---------- case mappings character by character ----------

  /** Case mappings that work character by character; one character may become several. */
  datatype Letters = Letters(isWord: char -> bool, lower: char -> string, upper: char -> string)

  function Each(f: char -> string, s: string): string {
    if s == "" then "" else f(s[0]) + Each(f, s[1..])
  }

  function ScriptOf(ls: Letters): Script {
    Script(ls.isWord, s => Each(ls.lower, s), s => Each(ls.upper, s))
  }

  predicate SameKind(isWord: char -> bool, c: char, s: string) {
    s != "" && forall i :: 0 <= i < |s| ==> (isWord(s[i]) <==> isWord(c))
  }

  ghost predicate Keeps(isWord: char -> bool, f: char -> string) {
    forall c :: SameKind(isWord, c, f(c))
  }

  predicate NoSpace(s: string) {
    forall i :: 0 <= i < |s| ==> !PySpace(s[i])
  }

  /** Word characters stay word characters, the others stay what they are, and none becomes blank. */
  ghost predicate KeepsKinds(ls: Letters) {
    && !ls.isWord('_') && (forall c :: PySpace(c) ==> !ls.isWord(c))
    && Keeps(ls.isWord, ls.lower) && Keeps(ls.isWord, ls.upper)
    && (forall c :: !PySpace(c) ==> NoSpace(ls.upper(c)))
  }

  /** Upper case stays upper case, and the lower case of an upper case is that of the letter itself. */
  ghost predicate CaseSettles(ls: Letters) {
    && (forall c :: Each(ls.upper, ls.upper(c)) == ls.upper(c))
    && (forall c :: ls.isWord(c) ==> Each(ls.lower, ls.upper(c)) == ls.lower(c))
  }

  lemma {:induction false} EachAppend(f: char -> string, s: string, t: string)
    ensures Each(f, s + t) == Each(f, s) + Each(f, t)
  {
    if s == "" {
      assert s + t == t;
    } else {
      assert (s + t)[1..] == s[1..] + t;
      EachAppend(f, s[1..], t);
    }
  }

  lemma EachOne(f: char -> string, c: char)
    ensures Each(f, [c]) == f(c)
  {
    assert [c][1..] == "";
  }

  /** What the runs that are cut become: a mapping with `sep` for every character that is cut. */
  function Joined(isWord: char -> bool, f: char -> string, sep: char): char -> string {
    c => if isWord(c) then f(c) else [sep]
  }

  lemma {:induction false} CollapseWords(isWord: char -> bool, b: string, r: string, sep: char)
    requires forall i :: 0 <= i < |b| ==> isWord(b[i])
    ensures Collapse(b + r, Cut(isWord), sep) == b + Collapse(r, Cut(isWord), sep)
  {
    if b == "" {
      assert b + r == r;
    } else {
      assert (b + r)[1..] == b[1..] + r;
      CollapseWords(isWord, b[1..], r, sep);
    }
  }

  lemma {:induction false} CollapseRun(isWord: char -> bool, b: string, r: string, sep: char)
    requires b != "" && forall i :: 0 <= i < |b| ==> !isWord(b[i])
    ensures Collapse(b + r, Cut(isWord), sep)
            == if r != "" && !isWord(r[0]) then Collapse(r, Cut(isWord), sep) else [sep] + Collapse(r, Cut(isWord), sep)
  {
    assert (b + r)[1..] == b[1..] + r;
    if |b| > 1 {
      CollapseRun(isWord, b[1..], r, sep);
    } else {
      assert b[1..] + r == r;
    }
  }

  lemma EachStart(isWord: char -> bool, f: char -> string, s: string)
    requires Keeps(isWord, f)
    ensures (Each(f, s) == "" <==> s == "") && (s != "" ==> (isWord(Each(f, s)[0]) <==> isWord(s[0])))
  {
    if s != "" { assert SameKind(isWord, s[0], f(s[0])); }
  }

  /** Mapping and then folding is folding and then mapping. */
  lemma {:induction false} CollapseEach(isWord: char -> bool, f: char -> string, s: string, sep: char)
    requires Keeps(isWord, f) && !isWord('_')
    ensures Collapse(Each(f, s), Cut(isWord), sep)
            == Each(Joined(isWord, f, sep), Collapse(s, Cut(isWord), '_'))
  {
    hide Collapse, Keeps;
    if s == "" {
      CollapseNothing(isWord, sep);
      CollapseNothing(isWord, '_');
    } else {
      var c, rest := s[0], s[1..];
      assert s == [c] + rest;
      CollapseEach(isWord, f, rest, sep);
      EachStart(isWord, f, rest);
      assert SameKind(isWord, c, f(c)) by { KeepsOne(isWord, f, c); }
      var g := Joined(isWord, f, sep);
      if isWord(c) {
        CollapseWords(isWord, f(c), Each(f, rest), sep);
        CollapseWords(isWord, [c], rest, '_');
        EachAppend(g, [c], Collapse(rest, Cut(isWord), '_'));
        EachOne(g, c);
      } else {
        CollapseRun(isWord, f(c), Each(f, rest), sep);
        CollapseRun(isWord, [c], rest, '_');
        EachAppend(g, "_", Collapse(rest, Cut(isWord), '_'));
        EachOne(g, '_');
      }
    }
  }

  lemma KeepsOne(isWord: char -> bool, f: char -> string, c: char)
    requires Keeps(isWord, f)
    ensures SameKind(isWord, c, f(c))
  {
  }

  lemma CollapseNothing(isWord: char -> bool, sep: char)
    ensures Collapse("", Cut(isWord), sep) == ""
  {
  }

  /** Words with single underscores between or around them. */
  predicate Singled(isWord: char -> bool, s: string, sep: char) {
    (forall i :: 0 <= i < |s| ==> isWord(s[i]) || s[i] == sep)
    && (forall i :: 0 < i < |s| ==> isWord(s[i - 1]) || isWord(s[i]))
  }

  lemma {:induction false} CollapseSingles(isWord: char -> bool, s: string, sep: char)
    requires !isWord(sep)
    ensures var r := Collapse(s, Cut(isWord), sep);
            Singled(isWord, r, sep) && (s == "" <==> r == "") && (s != "" ==> (isWord(s[0]) <==> isWord(r[0])))
  {
    if s != "" { CollapseSingles(isWord, s[1..], sep); }
  }

  /** The text folded to its words, before the case is changed. */
  function Words(ls: Letters, text: string): string {
    Trim(Collapse(Trim(text, PySpace), Cut(ls.isWord), '_'), Underscore)
  }

  lemma {:induction false} EachBlank(isWord: char -> bool, f: char -> string, s: string, sep: char, sp: Space)
    requires !isWord('_') && AllSpace(s, Underscore) && sp(sep)
    ensures AllSpace(Each(Joined(isWord, f, sep), s), sp)
  {
    if s != "" { EachBlank(isWord, f, s[1..], sep, sp); }
  }

  lemma EachEnds(isWord: char -> bool, f: char -> string, s: string, sep: char)
    requires Keeps(isWord, f) && s != "" && isWord(s[0]) && isWord(s[|s| - 1])
    ensures var r := Each(Joined(isWord, f, sep), s); r != "" && isWord(r[0]) && isWord(r[|r| - 1])
  {
    var g := Joined(isWord, f, sep);
    var n := |s| - 1;
    KeepsOne(isWord, f, s[0]);
    KeepsOne(isWord, f, s[n]);
    EachAppend(g, s[..n], [s[n]]);
    EachOne(g, s[n]);
    assert s == s[..n] + [s[n]];
  }

  lemma TrimmedStays(s: string, sp: Space)
    requires Trimmed(s, sp)
    ensures Trim(s, sp) == s
  {
    assert s == "" + s + "";
    TrimIs(s, "", s, "", sp);
  }

  /** Trimming the mapped text is mapping the trimmed text. */
  lemma TrimMapped(isWord: char -> bool, f: char -> string, s: string, sep: char, sp: Space)
    requires !isWord('_') && Keeps(isWord, f) && Singled(isWord, s, '_')
    requires sp(sep) && forall c :: isWord(c) ==> !sp(c)
    ensures Trim(Each(Joined(isWord, f, sep), s), sp) == Each(Joined(isWord, f, sep), Trim(s, Underscore))
  {
    hide Trim, Keeps, Joined;
    var left, right := TrimSplits(s, Underscore);
    var mid := Trim(s, Underscore);
    var g := Joined(isWord, f, sep);
    EachAppend(g, left + mid, right);
    EachAppend(g, left, mid);
    EachBlank(isWord, f, left, sep, sp);
    EachBlank(isWord, f, right, sep, sp);
    if mid != "" {
      assert s[|left|] == mid[0] && s[|left| + |mid| - 1] == mid[|mid| - 1];
      EachEnds(isWord, f, mid, sep);
    }
    TrimIs(Each(g, s), Each(g, left), Each(g, mid), Each(g, right), sp);
  }

  /** The alias key is the words in lower case with blanks between them. */
  lemma KeyOfWords(ls: Letters, text: string)
    requires KeepsKinds(ls)
    ensures KeyIn(ScriptOf(ls), text) == Each(Joined(ls.isWord, ls.lower, ' '), Words(ls, text))
  {
    hide Trim, Collapse, Keeps, Joined;
    var t := Trim(text, PySpace);
    var key := Collapse(Each(ls.lower, t), Cut(ls.isWord), ' ');
    assert PySpace(' ') && !ls.isWord(' ');
    CollapseSingles(ls.isWord, Each(ls.lower, t), ' ');
    CollapseKeeps(key, PySpace, ' ');
    CollapseEach(ls.isWord, ls.lower, t, ' ');
    CollapseSingles(ls.isWord, t, '_');
    TrimMapped(ls.isWord, ls.lower, Collapse(t, Cut(ls.isWord), '_'), ' ', PySpace);
  }

  /** The type is the words in upper case, or without words the whole text. */
  lemma TypeOfWords(ls: Letters, text: string)
    requires KeepsKinds(ls)
    ensures TypeIn(ScriptOf(ls), text)
            == Each(ls.upper, if Words(ls, text) == "" then Trim(text, PySpace) else Words(ls, text))
  {
    hide Trim, Collapse, Keeps;
    EachStart(ls.isWord, ls.upper, Words(ls, text));
  }

  lemma WordsAreSingled(ls: Letters, text: string)
    requires KeepsKinds(ls)
    ensures var t := Words(ls, text);
            Singled(ls.isWord, t, '_') && Trimmed(t, Underscore)
            && (t != "" ==> ls.isWord(t[0]) && ls.isWord(t[|t| - 1]))
  {
    hide Trim, Collapse, Keeps;
    var c := Collapse(Trim(text, PySpace), Cut(ls.isWord), '_');
    CollapseSingles(ls.isWord, Trim(text, PySpace), '_');
    var left, right := TrimSplits(c, Underscore);
    var t := Words(ls, text);
    assert forall i :: 0 <= i < |t| ==> t[i] == c[|left| + i];
  }

  /** The words of a text's type. */
  lemma WordsOfType(ls: Letters, text: string)
    requires KeepsKinds(ls) && Trim(text, PySpace) != ""
    ensures var once := TypeIn(ScriptOf(ls), text); var t := Words(ls, text);
            && once != "" && Trim(once, PySpace) == once
            && Words(ls, once) == Each(Joined(ls.isWord, ls.upper, '_'), t)
  {
    hide Trim, Collapse, Keeps, Joined, TypeIn, Each;
    var once := TypeIn(ScriptOf(ls), text);
    TypeOfWords(ls, text);
    var t := Words(ls, text);
    WordsAreSingled(ls, text);
    if t == "" {
      WordlessType(ls, text);
    } else {
      UpperEnds(ls, t);
      TrimmedStays(once, PySpace);
      CollapseEach(ls.isWord, ls.upper, t, '_');
      CollapseKeeps(t, Cut(ls.isWord), '_');
      TrimMapped(ls.isWord, ls.upper, t, '_', Underscore);
      TrimmedStays(t, Underscore);
    }
  }

  lemma UpperNoSpace(ls: Letters, c: char)
    requires KeepsKinds(ls) && !PySpace(c)
    ensures ls.upper(c) != "" && NoSpace(ls.upper(c))
  {
    KeepsOne(ls.isWord, ls.upper, c);
  }

  lemma UpperEnds(ls: Letters, t: string)
    requires KeepsKinds(ls) && t != "" && !PySpace(t[0]) && !PySpace(t[|t| - 1])
    ensures var u := Each(ls.upper, t); u != "" && Trimmed(u, PySpace)
  {
    hide KeepsKinds, PySpace;
    var n := |t| - 1;
    UpperNoSpace(ls, t[0]);
    UpperNoSpace(ls, t[n]);
    EachAppend(ls.upper, t[..n], [t[n]]);
    EachOne(ls.upper, t[n]);
    assert t == t[..n] + [t[n]];
  }

  lemma WordlessType(ls: Letters, text: string)
    requires KeepsKinds(ls) && Trim(text, PySpace) != "" && Words(ls, text) == ""
    ensures var once := Each(ls.upper, Trim(text, PySpace));
            && once != "" && Trim(once, PySpace) == once
            && Words(ls, once) == "" == Each(Joined(ls.isWord, ls.upper, '_'), "")
  {
    hide Trim, Collapse, Keeps, Joined;
    var t := Trim(text, PySpace);
    UpperEnds(ls, t);
    TrimmedStays(Each(ls.upper, t), PySpace);
    CollapseEach(ls.isWord, ls.upper, t, '_');
    CollapseSingles(ls.isWord, t, '_');
    TrimMapped(ls.isWord, ls.upper, Collapse(t, Cut(ls.isWord), '_'), '_', Underscore);
  }

  lemma {:induction false} JoinedOnWords(isWord: char -> bool, f: char -> string, sep: char, s: string)
    requires forall i :: 0 <= i < |s| ==> isWord(s[i])
    ensures Each(Joined(isWord, f, sep), s) == Each(f, s)
  {
    if s != "" { JoinedOnWords(isWord, f, sep, s[1..]); }
  }

  /** With settled case, changing the case of the type's words again changes nothing. */
  lemma {:induction false} WordsSettle(ls: Letters, t: string)
    requires KeepsKinds(ls) && CaseSettles(ls) && forall i :: 0 <= i < |t| ==> ls.isWord(t[i]) || t[i] == '_'
    ensures var u := Each(Joined(ls.isWord, ls.upper, '_'), t);
            && Each(ls.upper, u) == Each(ls.upper, t)
            && Each(Joined(ls.isWord, ls.lower, ' '), u) == Each(Joined(ls.isWord, ls.lower, ' '), t)
  {
    if t != "" {
      var c, rest := t[0], t[1..];
      var up, low := Joined(ls.isWord, ls.upper, '_'), Joined(ls.isWord, ls.lower, ' ');
      WordsSettle(ls, rest);
      EachAppend(ls.upper, up(c), Each(up, rest));
      EachAppend(low, up(c), Each(up, rest));
      if ls.isWord(c) {
        KeepsOne(ls.isWord, ls.upper, c);
        JoinedOnWords(ls.isWord, ls.lower, ' ', ls.upper(c));
      } else {
        EachOne(ls.upper, '_');
        EachOne(low, '_');
      }
    }
  }

  lemma {:induction false} UpperSettles(ls: Letters, t: string)
    requires CaseSettles(ls)
    ensures Each(ls.upper, Each(ls.upper, t)) == Each(ls.upper, t)
  {
    if t != "" {
      UpperSettles(ls, t[1..]);
      EachAppend(ls.upper, ls.upper(t[0]), Each(ls.upper, t[1..]));
    }
  }

  /** The letters modelled for the vocabulary keep kinds and settle. */
  const LATIN: Letters := Letters(IsWord, c => [LowerChar(c)], c => [UpperChar(c)])

  lemma LatinKeeps()
    ensures KeepsKinds(LATIN)
  {
    hide Each;
    forall c ensures SameKind(IsWord, c, LATIN.lower(c)) && SameKind(IsWord, c, LATIN.upper(c)) {}
    forall c | PySpace(c) ensures !IsWord(c) {}
    forall c | !PySpace(c) ensures !PySpace(UpperChar(c)) {}
  }

  lemma LatinSettles()
    ensures KeepsKinds(LATIN) && CaseSettles(LATIN)
  {
    hide Each, KeepsKinds;
    LatinKeeps();
    forall c ensures Each(LATIN.upper, LATIN.upper(c)) == LATIN.upper(c) { EachOne(LATIN.upper, UpperChar(c)); }
    forall c ensures IsWord(c) ==> Each(LATIN.lower, LATIN.upper(c)) == LATIN.lower(c) {
      EachOne(LATIN.lower, UpperChar(c));
    }
  }

  /** Whether the casing fits a text, in terms of its words. */
  lemma FitsMeans(ls: Letters, text: string)
    requires KeepsKinds(ls) && Trim(text, PySpace) != ""
    ensures var t := Words(ls, text); var u := Each(Joined(ls.isWord, ls.upper, '_'), t);
            var low := Joined(ls.isWord, ls.lower, ' '); var whole := Each(ls.upper, Trim(text, PySpace));
            CasingFits(ScriptOf(ls), text)
            <==> Each(low, u) == Each(low, t)
                 && (if t == "" then Each(ls.upper, whole) == whole else Each(ls.upper, u) == Each(ls.upper, t))
  {
    hide Trim, Collapse, Keeps, Joined, TypeIn, KeyIn, Each, Words;
    var once := TypeIn(ScriptOf(ls), text);
    WordsOfType(ls, text);
    KeyOfWords(ls, text);
    KeyOfWords(ls, once);
    TypeOfWords(ls, text);
    TypeOfWords(ls, once);
    UpperIsText(ls, text);
  }

  lemma UpperIsText(ls: Letters, text: string)
    requires KeepsKinds(ls)
    ensures var u := Each(Joined(ls.isWord, ls.upper, '_'), Words(ls, text)); u == "" <==> Words(ls, text) == ""
  {
    hide Trim, Collapse, Keeps, Words;
    WordsAreSingled(ls, text);
    if Words(ls, text) != "" { EachEnds(ls.isWord, ls.upper, Words(ls, text), '_'); }
  }

  lemma OneWord(ls: Letters, c: char)
    requires KeepsKinds(ls) && ls.isWord(c)
    ensures Trim([c], PySpace) == [c] && Words(ls, [c]) == [c]
  {
    hide Trim, Keeps;
    TrimmedStays([c], PySpace);
    CollapseKeeps([c], Cut(ls.isWord), '_');
    TrimmedStays([c], Underscore);
  }

  lemma NoWord(ls: Letters, text: string)
    requires KeepsKinds(ls) && text != "" && Trimmed(text, PySpace)
    requires forall i :: 0 <= i < |text| ==> !ls.isWord(text[i])
    ensures Trim(text, PySpace) == text && Words(ls, text) == ""
  {
    hide Trim, Keeps, Collapse;
    TrimmedStays(text, PySpace);
    CollapseRun(ls.isWord, text, "", '_');
    CollapseNothing(ls.isWord, '_');
    assert text + "" == text;
    assert Collapse(text, Cut(ls.isWord), '_') == "_";
    assert "_" == "_" + "" + "";
    TrimIs("_", "_", "", "", Underscore);
  }

  lemma WordSettles(ls: Letters, c: char)
    requires KeepsKinds(ls) && ls.isWord(c) && CasingFits(ScriptOf(ls), [c])
    ensures Each(ls.upper, ls.upper(c)) == ls.upper(c) && Each(ls.lower, ls.upper(c)) == ls.lower(c)
  {
    hide Trim, Collapse, Words, CasingFits, Each;
    var up, low := Joined(ls.isWord, ls.upper, '_'), Joined(ls.isWord, ls.lower, ' ');
    OneWord(ls, c);
    FitsMeans(ls, [c]);
    EachOne(up, c);
    EachOne(low, c);
    EachOne(ls.upper, c);
    KeepsOne(ls.isWord, ls.upper, c);
    JoinedOnWords(ls.isWord, ls.lower, ' ', ls.upper(c));
  }

  lemma WordlessSettles(ls: Letters, text: string)
    requires KeepsKinds(ls) && text != "" && Trimmed(text, PySpace)
    requires forall i :: 0 <= i < |text| ==> !ls.isWord(text[i])
    requires CasingFits(ScriptOf(ls), text)
    ensures Each(ls.upper, Each(ls.upper, text)) == Each(ls.upper, text)
  {
    hide Trim, Collapse, Words, CasingFits, Each;
    NoWord(ls, text);
    FitsMeans(ls, text);
  }

  lemma BetweenBars(ls: Letters, c: char)
    requires Each(ls.upper, ls.upper('_')) == ls.upper('_')
    requires Each(ls.upper, Each(ls.upper, ['_', c, '_'])) == Each(ls.upper, ['_', c, '_'])
    ensures Each(ls.upper, ls.upper(c)) == ls.upper(c)
  {
    hide Each;
    var bar, mid := ls.upper('_'), ls.upper(c);
    assert ['_', c, '_'] == ['_'] + ([c] + ['_']);
    EachAppend(ls.upper, ['_'], [c] + ['_']);
    EachAppend(ls.upper, [c], ['_']);
    EachOne(ls.upper, '_');
    EachOne(ls.upper, c);
    EachAppend(ls.upper, bar, mid + bar);
    EachAppend(ls.upper, mid, bar);
    Cancel(bar, Each(ls.upper, mid), mid, bar);
  }

  lemma Cancel(left: string, a: string, b: string, right: string)
    requires left + (a + right) == left + (b + right)
    ensures a == b
  {
    var s := left + (a + right);
    assert |s| == |left| + |a| + |right| == |left| + |b| + |right|;
    assert a == s[|left|..|left| + |a|] && b == s[|left|..|left| + |b|];
  }

  /** For case mappings that keep the kinds of characters, normalising is idempotent on every text, by
      every table that does not list it, exactly when the mappings settle: upper case is its own upper
      case, and has the lower case of the letter it came from. */
  lemma SettledIsExact(ls: Letters)
    requires KeepsKinds(ls)
    ensures (forall text: string :: Trim(text, PySpace) != "" ==> CasingFits(ScriptOf(ls), text)) <==> CaseSettles(ls)
  {
    hide Trim, Collapse, CasingFits, Words, Each, Keeps;
    if CaseSettles(ls) {
      forall text: string | Trim(text, PySpace) != "" ensures CasingFits(ScriptOf(ls), text) {
        WordsAreSingled(ls, text);
        WordsSettle(ls, Words(ls, text));
        UpperSettles(ls, Trim(text, PySpace));
        FitsMeans(ls, text);
      }
    }
    if forall text: string :: Trim(text, PySpace) != "" ==> CasingFits(ScriptOf(ls), text) {
      forall c ensures Each(ls.upper, ls.upper(c)) == ls.upper(c)
                       && (ls.isWord(c) ==> Each(ls.lower, ls.upper(c)) == ls.lower(c)) {
        LetterSettles(ls, c);
      }
    }
  }

  lemma LetterSettles(ls: Letters, c: char)
    requires KeepsKinds(ls)
    requires forall text: string :: Trim(text, PySpace) != "" ==> CasingFits(ScriptOf(ls), text)
    ensures Each(ls.upper, ls.upper(c)) == ls.upper(c)
    ensures ls.isWord(c) ==> Each(ls.lower, ls.upper(c)) == ls.lower(c)
  {
    hide Trim, Collapse, CasingFits, Words, Each, Keeps;
    if ls.isWord(c) {
      OneWord(ls, c);
      WordSettles(ls, c);
    } else {
      NoWord(ls, "_");
      WordlessSettles(ls, "_");
      EachOne(ls.upper, '_');
      var barred := ['_', c, '_'];
      NoWord(ls, barred);
      WordlessSettles(ls, barred);
      BetweenBars(ls, c);
    }
  }
}
