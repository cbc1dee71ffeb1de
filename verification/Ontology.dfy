/** Relationship types: free texts folded onto the controlled vocabulary. Texts are over ASCII and
    Hangul syllables; every other character counts as a separator here. */
module Ontology {
  import opened Text

  predicate IsWord(c: char) {
    'a' <= c <= 'z' || 'A' <= c <= 'Z' || '0' <= c <= '9' || 0xAC00 <= c as int <= 0xD7A3
  }

  /** Below the other scripts these are the letters and the digits. */
  lemma AsciiWords(c: char)
    requires c as int < 128
    ensures IsWord(c) <==> c in "abcdefghijklmnopqrstuvwxyz" || c in "ABCDEFGHIJKLMNOPQRSTUVWXYZ" || c in "0123456789"
  {
  }

  /** A character that `[\W_]` matches. */
  predicate Separates(c: char) {
    !IsWord(c)
  }

  predicate Underscore(c: char) {
    c == '_'
  }

  /** Every run of characters of kind `cut` becomes one `sep`. */
  function Collapse(s: string, cut: Space, sep: char): string {
    if s == "" then ""
    else if !cut(s[0]) then [s[0]] + Collapse(s[1..], cut, sep)
    else if |s| > 1 && cut(s[1]) then Collapse(s[1..], cut, sep)
    else [sep] + Collapse(s[1..], cut, sep)
  }

  function AliasKey(text: string): string {
    var key := Collapse(Lower(Trim(text, PySpace)), Separates, ' ');
    Trim(Collapse(key, PySpace, ' '), PySpace)
  }

  /** The token before it is put in upper case. */
  function Token(text: string): string {
    Trim(Collapse(Trim(text, PySpace), Separates, '_'), Underscore)
  }

  function CanonicalToken(text: string): string {
    Upper(Token(text))
  }

  const DEFAULT: string := "RELATED_TO"

  /** The vocabulary and the alias table, alias keys already folded. */
  datatype Tables = Tables(types: set<string>, aliases: map<string, string>)

  function Normalize(tables: Tables, raw: Option<string>): (string, bool) {
    var text := match raw case None => "" case Some(r) => Trim(r, PySpace);
    if text == "" then (DEFAULT, true)
    else if AliasKey(text) in tables.aliases then (tables.aliases[AliasKey(text)], true)
    else
      var token := CanonicalToken(text);
      var canonical := if token == "" then Upper(text) else token;
      (canonical, canonical in tables.types)
  }

  // ---------- the two foldings are one ----------

  function AsKey(c: char): char {
    if c == '_' then ' ' else LowerChar(c)
  }

  function KeyOf(token: string): (r: string)
    ensures |r| == |token| && forall i :: 0 <= i < |r| ==> r[i] == AsKey(token[i])
  {
    seq(|token|, i requires 0 <= i < |token| => AsKey(token[i]))
  }

  /** Words and single `sep`s between or around them. */
  predicate Folded(s: string, sep: char) {
    (forall i :: 0 <= i < |s| ==> IsWord(s[i]) || s[i] == sep)
    && (forall i :: 0 < i < |s| ==> IsWord(s[i - 1]) || IsWord(s[i]))
  }

  lemma {:induction false} CollapseFolds(s: string, sep: char)
    requires !IsWord(sep)
    ensures var r := Collapse(s, Separates, sep);
            Folded(r, sep) && (r != "" <==> s != "") && (s != "" ==> (IsWord(s[0]) <==> IsWord(r[0])))
  {
    if s != "" { CollapseFolds(s[1..], sep); }
  }

  /** Folding for the key is folding for the token, character by character. */
  lemma {:induction false} CollapseBoth(s: string)
    ensures Collapse(Lower(s), Separates, ' ') == KeyOf(Collapse(s, Separates, '_'))
  {
    if s != "" {
      assert Lower(s)[1..] == Lower(s[1..]);
      CollapseBoth(s[1..]);
    }
  }

  lemma {:induction false} CollapseKeeps(s: string, cut: Space, sep: char)
    requires forall i :: 0 <= i < |s| && cut(s[i]) ==> s[i] == sep
    requires forall i :: 0 < i < |s| ==> !cut(s[i - 1]) || !cut(s[i])
    ensures Collapse(s, cut, sep) == s
  {
    if s != "" {
      var t := s[1..];
      forall i | 0 < i < |t| ensures !cut(t[i - 1]) || !cut(t[i]) { assert t[i] == s[i + 1] && t[i - 1] == s[i]; }
      CollapseKeeps(t, cut, sep);
      assert s == [s[0]] + t;
    }
  }

  lemma KeyIsFolded(token: string)
    requires Folded(token, '_')
    ensures Folded(KeyOf(token), ' ') && Collapse(KeyOf(token), PySpace, ' ') == KeyOf(token)
  {
    var k := KeyOf(token);
    forall i | 0 <= i < |k| ensures IsWord(k[i]) <==> IsWord(token[i]) { assert IsWord(token[i]) || token[i] == '_'; }
    CollapseKeeps(k, PySpace, ' ');
  }

  lemma KeyBlank(c: char)
    requires IsWord(c) || c == '_'
    ensures PySpace(AsKey(c)) <==> c == '_'
  {
  }

  lemma KeyEnds(token: string)
    requires token != ""
    ensures KeyOf(token)[1..] == KeyOf(token[1..])
    ensures KeyOf(token)[..|token| - 1] == KeyOf(token[..|token| - 1])
  {
  }

  lemma {:induction false} KeyTrimStart(token: string)
    requires forall i :: 0 <= i < |token| ==> IsWord(token[i]) || token[i] == '_'
    ensures TrimStart(KeyOf(token), PySpace) == KeyOf(TrimStart(token, Underscore))
  {
    hide IsWord, PySpace, KeyOf;
    if token != "" { KeyBlank(token[0]); }
    if token != "" && token[0] == '_' {
      KeyEnds(token);
      KeyTrimStart(token[1..]);
    }
  }

  lemma {:induction false} KeyTrimEnd(token: string)
    requires forall i :: 0 <= i < |token| ==> IsWord(token[i]) || token[i] == '_'
    ensures TrimEnd(KeyOf(token), PySpace) == KeyOf(TrimEnd(token, Underscore))
  {
    hide IsWord, PySpace, KeyOf;
    var n := |token| - 1;
    if token != "" { KeyBlank(token[n]); }
    if token != "" && token[n] == '_' {
      KeyEnds(token);
      KeyTrimEnd(token[..n]);
    }
  }

  /** The alias key is the token with blanks for underscores and in lower case. */
  lemma KeyIsToken(text: string)
    ensures AliasKey(text) == KeyOf(Token(text))
  {
    hide Collapse, TrimStart, TrimEnd, Folded;
    var s := Trim(text, PySpace);
    var folded := Collapse(s, Separates, '_');
    CollapseBoth(s);
    CollapseFolds(s, '_');
    KeyIsFolded(folded);
    FoldedChars(folded);
    KeyTrimStart(folded);
    var cut := TrimStart(folded, Underscore);
    SuffixChars(folded, cut);
    KeyTrimEnd(cut);
  }

  lemma FoldedChars(s: string)
    requires Folded(s, '_')
    ensures forall i :: 0 <= i < |s| ==> IsWord(s[i]) || s[i] == '_'
  {
  }

  lemma SuffixChars(s: string, t: string)
    requires IsSuffix(t, s) && forall i :: 0 <= i < |s| ==> IsWord(s[i]) || s[i] == '_'
    ensures forall i :: 0 <= i < |t| ==> IsWord(t[i]) || t[i] == '_'
  {
    forall i | 0 <= i < |t| ensures IsWord(t[i]) || t[i] == '_' { assert t[i] == s[|s| - |t| + i]; }
  }

  /** A token: words with single underscores between them. */
  predicate IsToken(s: string) {
    Folded(s, '_') && Trimmed(s, Underscore)
  }

  lemma TokenIsToken(text: string)
    ensures IsToken(Token(text))
  {
    hide Collapse, Trim;
    var s := Trim(text, PySpace);
    var folded := Collapse(s, Separates, '_');
    CollapseFolds(s, '_');
    var left, right := TrimSplits(folded, Underscore);
    MiddleFolded(left, Trim(folded, Underscore), right);
  }

  lemma MiddleFolded(left: string, mid: string, right: string)
    requires Folded(left + mid + right, '_')
    ensures Folded(mid, '_')
  {
    var s := left + mid + right;
    forall i | 0 <= i < |mid| ensures mid[i] == s[|left| + i] {}
  }

  /** Two tokens with one key are equal up to case. */
  lemma SameKeySameToken(a: string, b: string)
    requires IsToken(a) && IsToken(b)
    ensures KeyOf(a) == KeyOf(b) <==> Upper(a) == Upper(b)
  {
  }

  lemma UpperToken(a: string)
    requires IsToken(a)
    ensures IsToken(Upper(a)) && KeyOf(Upper(a)) == KeyOf(a) && Upper(Upper(a)) == Upper(a)
  {
    forall i | 0 <= i < |a| ensures IsWord(Upper(a)[i]) <==> IsWord(a[i]) {}
  }

  /** A token is folded onto itself. */
  lemma TokenOfToken(a: string)
    requires IsToken(a)
    ensures Trim(a, PySpace) == a && Token(a) == a
  {
    hide Trim;
    assert a == "" + a + "";
    TrimIs(a, "", a, "", PySpace);
    CollapseKeeps(a, Separates, '_');
    TrimIs(a, "", a, "", Underscore);
  }

  /** Blanks around a text do not matter. */
  lemma TrimTwice(text: string)
    ensures var t := Trim(text, PySpace); Trim(t, PySpace) == t && Token(t) == Token(text)
  {
  }

  // ---------- what normalising promises ----------

  /** Two texts with one non-empty alias key get one type. */
  lemma SameKeySameType(tables: Tables, a: string, b: string)
    requires AliasKey(a) == AliasKey(b) != ""
    ensures Normalize(tables, Some(a)) == Normalize(tables, Some(b))
  {
    hide Trim, Collapse, IsToken, AliasKey, Token;
    var s, t := Trim(a, PySpace), Trim(b, PySpace);
    KeyIsToken(a); KeyIsToken(b); KeyIsToken(s); KeyIsToken(t);
    TrimTwice(a); TrimTwice(b);
    TokenIsToken(a); TokenIsToken(b);
    SameKeySameToken(Token(a), Token(b));
    NoKeyOfBlank(a); NoKeyOfBlank(b);
  }

  lemma NoKeyOfBlank(text: string)
    ensures Trim(text, PySpace) == "" ==> AliasKey(text) == ""
  {
  }

  /** Texts outside the alias table share a type exactly when they have the same words up to case,
      or, having no words at all, are the same text up to surrounding blanks. */
  lemma TypesDoNotCollide(tables: Tables, a: string, b: string)
    requires Trim(a, PySpace) != "" && Trim(b, PySpace) != ""
    requires AliasKey(a) !in tables.aliases && AliasKey(b) !in tables.aliases
    ensures Normalize(tables, Some(a)).0 == Normalize(tables, Some(b)).0
            <==> AliasKey(a) == AliasKey(b) && (AliasKey(a) == "" ==> Trim(a, PySpace) == Trim(b, PySpace))
  {
    hide Trim, Collapse, IsToken, AliasKey, Token;
    var s, t := Trim(a, PySpace), Trim(b, PySpace);
    KeyIsToken(a); KeyIsToken(b); KeyIsToken(s); KeyIsToken(t);
    TrimTwice(a); TrimTwice(b);
    TokenIsToken(a); TokenIsToken(b);
    SameKeySameToken(Token(a), Token(b));
    if Token(a) == "" { NoWords(s); }
    if Token(b) == "" { NoWords(t); }
    if Token(a) == "" && Token(b) != "" { WordInToken(s, Token(b)); }
    if Token(b) == "" && Token(a) != "" { WordInToken(t, Token(a)); }
  }

  predicate Wordless(s: string) {
    forall i :: 0 <= i < |s| ==> !IsWord(s[i])
  }

  /** A text without a token has no word character, so upper case is no change. */
  lemma NoWords(s: string)
    requires Trim(s, PySpace) == s && Token(s) == ""
    ensures Wordless(s) && Upper(s) == s
  {
    hide Trim;
    var folded := Collapse(s, Separates, '_');
    var left, right := TrimSplits(folded, Underscore);
    assert forall i :: 0 <= i < |folded| ==> folded[i] == '_' by {
      assert folded == left + right;
    }
    WordsSurvive(s);
    assert Upper(s) == s;
  }

  lemma {:induction false} WordsSurvive(s: string)
    ensures Wordless(Collapse(s, Separates, '_')) ==> Wordless(s)
  {
    if s != "" {
      var r := Collapse(s[1..], Separates, '_');
      WordsSurvive(s[1..]);
      var whole := Collapse(s, Separates, '_');
      assert IsWord(s[0]) ==> whole[0] == s[0];
      if Wordless(whole) {
        assert whole == r || whole == [whole[0]] + r;
        forall i | 0 <= i < |r| ensures !IsWord(r[i]) { assert whole == r || whole[i + 1] == r[i]; }
        forall i | 0 <= i < |s| ensures !IsWord(s[i]) { assert i > 0 ==> s[i] == s[1..][i - 1]; }
      }
    }
  }

  lemma WordInToken(s: string, token: string)
    requires Wordless(s) && IsToken(token) && token != ""
    ensures s != Upper(token)
  {
  }

  /** The alias keys are folded when the table is built. */
  predicate Keyed(tables: Tables) {
    forall k :: k in tables.aliases ==> AliasKey(k) == k
  }

  /** The alias table built from its rows: keys are folded, a later row wins. */
  function AliasTable(rows: seq<(string, string)>): map<string, string> {
    if rows == [] then map[]
    else
      var last := rows[|rows| - 1];
      AliasTable(rows[..|rows| - 1])[AliasKey(last.0) := last.1]
  }

  lemma {:induction false} BuiltKeyed(types: set<string>, rows: seq<(string, string)>)
    ensures Keyed(Tables(types, AliasTable(rows)))
  {
    hide AliasKey;
    if rows != [] {
      BuiltKeyed(types, rows[..|rows| - 1]);
      AliasKeyTwice(rows[|rows| - 1].0);
      var front := Tables(types, AliasTable(rows[..|rows| - 1]));
      var all := Tables(types, AliasTable(rows));
      forall k | k in all.aliases ensures AliasKey(k) == k {
        assert k in front.aliases ==> AliasKey(k) == k;
      }
    }
  }

  lemma AliasKeyTwice(text: string)
    ensures AliasKey(AliasKey(text)) == AliasKey(text)
  {
    hide Trim, Collapse, AliasKey, Token, IsToken;
    TokenIsToken(text);
    KeyIsToken(text);
    KeyIsToken(AliasKey(text));
    TokenOfKey(Token(text));
  }

  /** The key of a token is folded back to the token in lower case. */
  lemma TokenOfKey(a: string)
    requires IsToken(a)
    ensures KeyOf(Token(KeyOf(a))) == KeyOf(a)
  {
    hide Trim, Collapse, IsWord, KeyOf;
    var k := KeyOf(a);
    KeyShape(a);
    assert k == "" + k + "";
    TrimIs(k, "", k, "", PySpace);
    Underscored(k);
    var u := Collapse(k, Separates, '_');
    KeyBack(a, u);
    assert u == "" + u + "";
    TrimIs(u, "", u, "", Underscore);
  }

  lemma KeyShape(a: string)
    requires IsToken(a)
    ensures Folded(KeyOf(a), ' ') && Trimmed(KeyOf(a), PySpace)
  {
  }

  lemma KeyBack(a: string, u: string)
    requires IsToken(a) && |u| == |a|
    requires forall i :: 0 <= i < |a| ==> u[i] == if IsWord(KeyOf(a)[i]) then KeyOf(a)[i] else '_'
    ensures KeyOf(u) == KeyOf(a) && Trimmed(u, Underscore)
  {
  }

  lemma {:induction false} Underscored(k: string)
    requires Folded(k, ' ')
    ensures var u := Collapse(k, Separates, '_');
            |u| == |k| && forall i :: 0 <= i < |k| ==> u[i] == if IsWord(k[i]) then k[i] else '_'
  {
    if k != "" {
      var t := k[1..];
      forall i | 0 < i < |t| ensures IsWord(t[i - 1]) || IsWord(t[i]) { assert t[i] == k[i + 1] && t[i - 1] == k[i]; }
      Underscored(t);
    }
  }

  /** Every type the tables can return is, read as a text, an alias of itself or no alias. */
  predicate Closed(tables: Tables) {
    Stays(tables, DEFAULT) && forall k :: k in tables.aliases ==> Stays(tables, tables.aliases[k])
  }

  predicate Stays(tables: Tables, relation: string) {
    Normalize(tables, Some(relation)) == (relation, true)
  }

  predicate Idempotent(tables: Tables, raw: Option<string>) {
    var once := Normalize(tables, raw);
    Normalize(tables, Some(once.0)) == once
  }

  lemma UnknownStays(tables: Tables, text: string)
    requires Trim(text, PySpace) == text != "" && AliasKey(text) !in tables.aliases
    ensures Idempotent(tables, Some(text))
  {
    hide Trim, Collapse, AliasKey, Token, IsToken;
    TokenIsToken(text);
    if Token(text) == "" {
      NoWords(text);
    } else {
      var once := Upper(Token(text));
      UpperToken(Token(text));
      TokenOfToken(once);
      KeyIsToken(text);
      KeyIsToken(once);
    }
  }

  /** Normalising is idempotent on every input exactly when the tables are closed: unknown texts
      need no condition at all. */
  lemma NormalizeTwice(tables: Tables)
    requires Keyed(tables)
    ensures (forall raw :: Idempotent(tables, raw)) <==> Closed(tables)
  {
    hide Idempotent, Closed, Keyed;
    if Closed(tables) {
      forall raw ensures Idempotent(tables, raw) { ClosedIsIdempotent(tables, raw); }
    }
    if forall raw :: Idempotent(tables, raw) { IdempotentIsClosed(tables); }
  }

  lemma ClosedIsIdempotent(tables: Tables, raw: Option<string>)
    requires Closed(tables)
    ensures Idempotent(tables, raw)
  {
    hide Trim, Collapse, AliasKey, Token, IsToken;
    if raw.Some? && Trim(raw.value, PySpace) != "" {
      var text := Trim(raw.value, PySpace);
      TrimTwice(raw.value);
      if AliasKey(text) in tables.aliases {
        assert Stays(tables, tables.aliases[AliasKey(text)]);
      } else {
        UnknownStays(tables, text);
        assert Normalize(tables, raw) == Normalize(tables, Some(text));
      }
    } else {
      assert Stays(tables, DEFAULT);
    }
  }

  lemma IdempotentIsClosed(tables: Tables)
    requires Keyed(tables) && forall raw :: Idempotent(tables, raw)
    ensures Closed(tables)
  {
    hide Trim, Collapse, AliasKey, Token, IsToken, Normalize;
    assert Idempotent(tables, None);
    assert Normalize(tables, None) == (DEFAULT, true) by { NoText(tables); }
    forall k | k in tables.aliases ensures Stays(tables, tables.aliases[k]) {
      assert AliasKey(k) == k;
      var text := if k == "" then "-" else k;
      KeyText(k);
      assert Idempotent(tables, Some(text));
      AliasHit(tables, text);
    }
  }

  lemma NoText(tables: Tables)
    ensures Normalize(tables, None) == (DEFAULT, true)
  {
  }

  lemma KeyText(k: string)
    requires AliasKey(k) == k
    ensures var text := if k == "" then "-" else k; Trim(text, PySpace) == text && AliasKey(text) == k
  {
    hide Trim, Collapse, AliasKey, Token;
    var text := if k == "" then "-" else k;
    KeyIsTrimmed(k);
    assert text == "" + text + "";
    TrimIs(text, "", text, "", PySpace);
    DashKey();
  }

  lemma KeyIsTrimmed(k: string)
    ensures AliasKey(k) == k ==> Trimmed(k, PySpace)
  {
    hide Collapse;
  }

  lemma DashKey()
    ensures AliasKey("-") == ""
  {
    assert "-" == "" + "-" + "";
    TrimIs("-", "", "-", "", PySpace);
    assert Lower("-") == "-";
    assert Collapse("-", Separates, ' ') == " ";
    assert Collapse(" ", PySpace, ' ') == " ";
    assert " " == " " + "" + "";
    TrimIs(" ", " ", "", "", PySpace);
  }

  lemma AliasHit(tables: Tables, text: string)
    requires Trim(text, PySpace) == text != "" && AliasKey(text) in tables.aliases
    ensures Normalize(tables, Some(text)) == (tables.aliases[AliasKey(text)], true)
  {
    hide Trim, AliasKey;
  }
}
