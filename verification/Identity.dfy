/** Identity documents: turning any JSON value into a list of distinct texts. */
module Identity {
  import opened Text

  /** A JSON value. A number is its printed text; an object is its fields in iteration order. */
  datatype Json =
    | Null
    | Bool(b: bool)
    | Number(text: string)
    | String(s: string)
    | Array(entries: seq<Json>)
    | Object(fields: seq<Field>)

  datatype Field = Field(key: string, value: Json)

  function Strip(s: string): string {
    Trim(s, RustSpace)
  }

  function Scalar(v: Json): Option<string> {
    match v
    case String(s) => if Strip(s) == "" then None else Some(Strip(s))
    case Number(text) => Some(text)
    case Bool(b) => Some(if b then "true" else "false")
    case _ => None
  }

  function Get(fields: seq<Field>, key: string): Option<Json> {
    if fields == [] then None
    else if fields[0].key == key then Some(fields[0].value)
    else Get(fields[1..], key)
  }

  function Named(fields: seq<Field>, key: string): Option<string> {
    match Get(fields, key)
    case Some(v) => Scalar(v)
    case None => None
  }

  function Join(parts: seq<string>, sep: string): string {
    if parts == [] then ""
    else if |parts| == 1 then parts[0]
    else Join(parts[..|parts| - 1], sep) + sep + parts[|parts| - 1]
  }

  // ---------- distinct texts ----------

  /** Two texts count as the same when they agree up to surrounding blanks and ASCII case. */
  function Key(x: string): string {
    Lower(Strip(x))
  }

  predicate Seen(xs: seq<string>, key: string) {
    exists i :: 0 <= i < |xs| && Key(xs[i]) == key
  }

  /** The last of `xs` says something the others do not. */
  predicate LastIsNew(xs: seq<string>)
    requires xs != []
  {
    var n := |xs| - 1;
    Strip(xs[n]) != "" && !Seen(xs[..n], Key(xs[n]))
  }

  /** The first text of each kind, in order. */
  function Distinct(xs: seq<string>): seq<string> {
    if xs == [] then []
    else if LastIsNew(xs) then Distinct(xs[..|xs| - 1]) + [Strip(xs[|xs| - 1])]
    else Distinct(xs[..|xs| - 1])
  }

  // ---------- the flattening ----------

  /** The texts of a value in order of appearance, nothing dropped. */
  function Leaves(v: Json): seq<string>
    decreases v, 2, 0
  {
    match v
    case Array(es) => LeavesAll(v, |es|)
    case Object(fields) => ObjectLeaf(v)
    case _ => match Scalar(v) case Some(t) => [t] case None => []
  }

  /** The texts of the first `n` entries. */
  function LeavesAll(v: Json, n: nat): seq<string>
    requires v.Array? && n <= |v.entries|
    decreases v, 0, n
  {
    if n == 0 then [] else LeavesAll(v, n - 1) + Leaves(v.entries[n - 1])
  }

  /** The one text that stands for an object: its name, its title or a summary. */
  function ObjectLeaf(v: Json): seq<string>
    requires v.Object?
    decreases v, 1, 0
  {
    if Named(v.fields, "name").Some? then [Named(v.fields, "name").value]
    else if Named(v.fields, "title").Some? then [Named(v.fields, "title").value]
    else var parts := Parts("", v, |v.fields|);
         if parts == [] then [] else [Join(parts, "; ")]
  }

  function Label(prefix: string, key: string): string {
    var words := seq(|key|, i requires 0 <= i < |key| => if key[i] == '_' then ' ' else key[i]);
    if prefix == "" then words else prefix + " " + words
  }

  /** The summary lines of the first `n` fields; nested objects contribute their own lines under a
      longer label, and fields starting with `@` none. */
  function Parts(prefix: string, v: Json, n: nat): seq<string>
    requires v.Object? && n <= |v.fields|
    decreases v, 0, n
  {
    if n == 0 then []
    else Parts(prefix, v, n - 1) + FieldParts(prefix, v, n - 1)
  }

  function FieldParts(prefix: string, v: Json, i: nat): seq<string>
    requires v.Object? && i < |v.fields|
    decreases v, 0, i
  {
    var f := v.fields[i];
    if f.key != "" && f.key[0] == '@' then []
    else
      var shown := Label(prefix, f.key);
      match f.value
      case Object(inner) => Parts(shown, f.value, |inner|)
      case Array(_) =>
        var texts := Distinct(Leaves(f.value));
        if texts == [] then [] else [shown + ": " + Join(texts, ", ")]
      case _ =>
        match Scalar(f.value)
        case Some(t) => [shown + ": " + t]
        case None => []
  }

  // ---------- dropping repetitions ----------

  lemma SeenIn(xs: seq<string>, ys: seq<string>, key: string)
    ensures Seen(xs + ys, key) <==> Seen(xs, key) || Seen(ys, key)
  {
    hide Key;
    if i: nat :| i < |xs| && Key(xs[i]) == key { assert (xs + ys)[i] == xs[i]; }
    if i: nat :| i < |ys| && Key(ys[i]) == key { assert (xs + ys)[|xs| + i] == ys[i]; }
  }

  lemma KeyOfStripped(x: string)
    ensures Strip(Strip(x)) == Strip(x) && Key(Strip(x)) == Key(x)
  {
  }

  lemma KeyOfBlank(x: string)
    ensures Key(x) == "" <==> Strip(x) == ""
  {
  }

  lemma Snoc(xs: seq<string>, ys: seq<string>, y: string)
    ensures var all := xs + (ys + [y]);
            all[..|all| - 1] == xs + ys && all[|all| - 1] == y && all == (xs + ys) + [y]
  {
  }

  /** One more text: kept exactly when it is not blank and not yet there. */
  lemma DistinctNext(xs: seq<string>, y: string)
    ensures Distinct(xs + [y])
            == if Strip(y) != "" && !Seen(xs, Key(y)) then Distinct(xs) + [Strip(y)] else Distinct(xs)
  {
  }

  /** Exactly the kinds of the non-blank texts are kept. */
  lemma {:induction false} KindsKept(xs: seq<string>, key: string)
    requires key != ""
    ensures Seen(Distinct(xs), key) <==> Seen(xs, key)
  {
    hide Key, Seen, Strip, Distinct;
    if xs == [] {
      NothingSeen(key);
    } else {
      var front, y := xs[..|xs| - 1], xs[|xs| - 1];
      assert xs == front + [y];
      KindsKept(front, key);
      DistinctNext(front, y);
      SeenIn(front, [y], key);
      SeenIn(Distinct(front), [Strip(y)], key);
      SeenOne(y, key);
    }
  }

  lemma NothingSeen(key: string)
    ensures !Seen([], key) && Distinct([]) == []
  {
  }

  lemma SeenOne(y: string, key: string)
    requires key != ""
    ensures Seen([y], key) <==> Key(y) == key
    ensures Seen([Strip(y)], key) <==> Key(y) == key
    ensures Strip(y) == "" ==> Key(y) != key
  {
    hide Key, Strip;
    KeyOfStripped(y);
    KeyOfBlank(y);
    assert [y][0] == y && [Strip(y)][0] == Strip(y);
  }

  /** What is kept is trimmed, not blank, and all of different kinds. */
  lemma {:induction false} AllDifferent(xs: seq<string>)
    ensures var r := Distinct(xs);
            (forall k <- r :: k != "" && Strip(k) == k)
            && forall i, j :: 0 <= i < j < |r| ==> Key(r[i]) != Key(r[j])
  {
    hide Key, Strip, Seen, Distinct;
    if xs == [] {
      NothingSeen("");
    } else {
      var front, y := xs[..|xs| - 1], xs[|xs| - 1];
      assert xs == front + [y];
      AllDifferent(front);
      DistinctNext(front, y);
      KeyOfStripped(y);
      KeyOfBlank(y);
      if Strip(y) != "" && !Seen(front, Key(y)) {
        var r := Distinct(front);
        KindsKept(front, Key(y));
        forall i | 0 <= i < |r| ensures Key(r[i]) != Key(Strip(y)) { Unseen(r, Key(y), i); }
      }
    }
  }

  lemma Unseen(xs: seq<string>, key: string, i: nat)
    requires !Seen(xs, key) && i < |xs|
    ensures Key(xs[i]) != key
  {
  }

  /** Dropping repetitions early changes nothing: not at the front, ... */
  lemma {:induction false} DistinctFront(xs: seq<string>, ys: seq<string>)
    ensures Distinct(Distinct(xs) + ys) == Distinct(xs + ys)
  {
    hide Key, Strip, Seen, Distinct;
    if ys == [] {
      assert xs + [] == xs && Distinct(xs) + [] == Distinct(xs);
      DistinctTwice(xs);
    } else {
      var front, y := ys[..|ys| - 1], ys[|ys| - 1];
      assert ys == front + [y];
      DistinctFront(xs, front);
      Snoc(xs, front, y);
      Snoc(Distinct(xs), front, y);
      DistinctNext(xs + front, y);
      DistinctNext(Distinct(xs) + front, y);
      KeyOfBlank(y);
      if Strip(y) != "" {
        KindsKept(xs, Key(y));
        SeenIn(xs, front, Key(y));
        SeenIn(Distinct(xs), front, Key(y));
      }
    }
  }

  lemma {:induction false} DistinctTwice(xs: seq<string>)
    ensures Distinct(Distinct(xs)) == Distinct(xs)
  {
    hide Key, Strip, Seen, Distinct;
    if xs == [] {
      NothingSeen("");
    } else {
      var front, y := xs[..|xs| - 1], xs[|xs| - 1];
      assert xs == front + [y];
      DistinctTwice(front);
      DistinctNext(front, y);
      DistinctNext(Distinct(front), Strip(y));
      KeyOfStripped(y);
      KeyOfBlank(y);
      if Strip(y) != "" { KindsKept(front, Key(y)); }
    }
  }

  /** ... and not at the end. */
  lemma {:induction false} DistinctBack(xs: seq<string>, ys: seq<string>)
    ensures Distinct(xs + Distinct(ys)) == Distinct(xs + ys)
  {
    hide Key, Strip, Seen, Distinct;
    if ys == [] {
      NothingSeen("");
    } else {
      var front, y := ys[..|ys| - 1], ys[|ys| - 1];
      assert ys == front + [y];
      DistinctBack(xs, front);
      DistinctNext(front, y);
      Snoc(xs, front, y);
      DistinctNext(xs + front, y);
      Snoc(xs, Distinct(front), Strip(y));
      DistinctNext(xs + Distinct(front), Strip(y));
      KeyOfStripped(y);
      KeyOfBlank(y);
      if Strip(y) != "" {
        KindsKept(front, Key(y));
        SeenIn(xs, front, Key(y));
        SeenIn(xs, Distinct(front), Key(y));
      }
    }
  }

  // ---------- what a list says about its value ----------

  /** The list of a value holds each kind of non-blank text found in it, once, and nothing else. */
  lemma ListMeaning(v: Json)
    ensures var r := Distinct(Leaves(v));
            (forall key :: key != "" ==> (Seen(r, key) <==> Seen(Leaves(v), key)))
            && (forall i, j :: 0 <= i < j < |r| ==> Key(r[i]) != Key(r[j]))
            && (forall k <- r :: k != "" && Strip(k) == k)
  {
    hide Distinct, Leaves, Seen, Key, Strip;
    AllDifferent(Leaves(v));
    forall key | key != "" ensures Seen(Distinct(Leaves(v)), key) <==> Seen(Leaves(v), key) {
      KindsKept(Leaves(v), key);
    }
  }

  function Flat(es: seq<Json>): seq<string> {
    if es == [] then [] else Flat(es[..|es| - 1]) + Leaves(es[|es| - 1])
  }

  lemma {:induction false} LeavesFlat(v: Json, n: nat)
    requires v.Array? && n <= |v.entries|
    ensures LeavesAll(v, n) == Flat(v.entries[..n])
  {
    hide Leaves;
    if n > 0 {
      LeavesFlat(v, n - 1);
      assert v.entries[..n][..n - 1] == v.entries[..n - 1];
    }
  }

  lemma ArrayFlat(es: seq<Json>)
    ensures Leaves(Array(es)) == Flat(es)
  {
    hide Flat;
    LeavesFlat(Array(es), |es|);
    assert es[..|es|] == es;
  }

  lemma {:induction false} FlatAppend(a: seq<Json>, b: seq<Json>)
    ensures Flat(a + b) == Flat(a) + Flat(b)
  {
    hide Leaves;
    if b == [] {
      assert a + [] == a && Flat(a) + [] == Flat(a);
    } else {
      var n := |b| - 1;
      assert (a + b)[..|a| + n] == a + b[..n];
      FlatAppend(a, b[..n]);
      Assoc(Flat(a), Flat(b[..n]), Leaves(b[n]));
    }
  }

  /** Brackets inside a list do not show: an inner list counts as its entries in its place. */
  lemma BracketsDoNotShow(a: seq<Json>, inner: seq<Json>, c: seq<Json>)
    ensures Distinct(Leaves(Array(a + [Array(inner)] + c))) == Distinct(Leaves(Array(a + inner + c)))
  {
    hide Distinct, Leaves, Flat;
    ArrayFlat(a + [Array(inner)] + c);
    ArrayFlat(a + inner + c);
    FlatAppend(a + [Array(inner)], c);
    FlatAppend(a, [Array(inner)]);
    FlatAppend(a + inner, c);
    FlatAppend(a, inner);
    ArrayFlat(inner);
    FlatOne(Array(inner));
  }

  lemma FlatOne(v: Json)
    ensures Flat([v]) == Leaves(v) && Flat([]) == []
  {
  }

  function Strings(xs: seq<string>): seq<Json> {
    if xs == [] then [] else Strings(xs[..|xs| - 1]) + [String(xs[|xs| - 1])]
  }

  lemma {:induction false} FlatStrings(xs: seq<string>)
    requires forall x <- xs :: x != "" && Strip(x) == x
    ensures Flat(Strings(xs)) == xs
  {
    hide Strip;
    if xs != [] {
      var n := |xs| - 1;
      forall x | x in xs[..n] ensures x != "" && Strip(x) == x { assert x in xs; }
      assert xs[n] in xs;
      FlatStrings(xs[..n]);
      FlatAppend(Strings(xs[..n]), [String(xs[n])]);
      FlatOne(String(xs[n]));
    }
  }

  /** Reading a list back from its own texts gives it again. */
  lemma RereadList(v: Json)
    ensures var r := Distinct(Leaves(v)); Distinct(Leaves(Array(Strings(r)))) == r
  {
    hide Distinct, Leaves, Flat, Strip, Key;
    var r := Distinct(Leaves(v));
    AllDifferent(Leaves(v));
    ArrayFlat(Strings(r));
    FlatStrings(r);
    DistinctTwice(Leaves(v));
  }

  // ---------- the program ----------

  /** Keeps a text unless one that differs only in ASCII case is kept already. */
  method DedupeNonEmpty(values: seq<string>) returns (deduped: seq<string>)
    ensures deduped == Distinct(values)
  {
    hide Strip, Distinct, Seen, Lower, Key;
    NothingSeen("");
    deduped := [];
    for i := 0 to |values|
      invariant deduped == Distinct(values[..i])
    {
      var trimmed := Strip(values[i]);
      assert values[..i + 1] == values[..i] + [values[i]];
      DistinctNext(values[..i], values[i]);
      if trimmed == "" { continue; }
      KeyOfBlank(values[i]);
      KeyOfStripped(values[i]);
      KindsKept(values[..i], Key(values[i]));
      var known := AnyEqual(deduped, trimmed) by { AllDifferent(values[..i]); }
      if !known { deduped := deduped + [trimmed]; }
    }
    assert values[..|values|] == values;
  }

  /** Whether one of the texts kept so far equals `trimmed` up to ASCII case. */
  method AnyEqual(deduped: seq<string>, trimmed: string) returns (known: bool)
    requires Strip(trimmed) == trimmed && forall k <- deduped :: Strip(k) == k
    ensures known <==> Seen(deduped, Key(trimmed))
  {
    hide Strip;
    for i := 0 to |deduped|
      invariant forall j :: 0 <= j < i ==> Key(deduped[j]) != Key(trimmed)
    {
      assert Strip(deduped[i]) == deduped[i];
      if Lower(deduped[i]) == Lower(trimmed) { return true; }
    }
    return false;
  }

  lemma LeavesEnd(v: Json, i: nat)
    requires v.Array? && i < |v.entries|
    ensures Distinct(LeavesAll(v, i) + Distinct(Leaves(v.entries[i]))) == Distinct(LeavesAll(v, i + 1))
  {
    hide Distinct, Leaves;
    DistinctBack(LeavesAll(v, i), Leaves(v.entries[i]));
  }

  /** However deep the nesting, and although repetitions are dropped at every level, the list is the
      flattened value with its repetitions dropped once. */
  method ListFromValue(v: Json) returns (values: seq<string>)
    ensures values == Distinct(Leaves(v))
    decreases v, 2, 0
  {
    hide Distinct, Scalar, Named, Join, Parts;
    values := [];
    match v {
      case Array(entries) =>
        NothingSeen("");
        for i := 0 to |entries|
          invariant Distinct(values) == Distinct(LeavesAll(v, i))
        {
          var texts := ListFromValue(entries[i]);
          LeavesEnd(v, i);
          DistinctFront(values, texts);
          DistinctFront(LeavesAll(v, i), texts);
          values := values + texts;
        }
      case Object(fields) =>
        var name := Named(fields, "name");
        var title := Named(fields, "title");
        if name.Some? {
          values := values + [name.value];
        } else if title.Some? {
          values := values + [title.value];
        } else {
          var summary := SummarizeObject(v);
          if summary.Some? { values := values + [summary.value]; }
        }
        assert values == Leaves(v);
      case _ =>
        var text := Scalar(v);
        if text.Some? { values := values + [text.value]; }
        assert values == Leaves(v);
    }
    values := DedupeNonEmpty(values);
  }

  method SummarizeObject(v: Json) returns (summary: Option<string>)
    requires v.Object?
    ensures var parts := Parts("", v, |v.fields|);
            summary == if parts == [] then None else Some(Join(parts, "; "))
    decreases v, 1, 0
  {
    hide Parts;
    var parts := SummarizeObjectIntoParts("", v, []);
    assert [] + Parts("", v, |v.fields|) == Parts("", v, |v.fields|);
    summary := if parts == [] then None else Some(Join(parts, "; "));
  }

  method SummarizeObjectIntoParts(prefix: string, v: Json, before: seq<string>) returns (parts: seq<string>)
    requires v.Object?
    ensures parts == before + Parts(prefix, v, |v.fields|)
    decreases v, 0, 0
  {
    hide Leaves, Distinct, Join, Label, Scalar;
    parts := before;
    for i := 0 to |v.fields|
      invariant parts == before + Parts(prefix, v, i)
    {
      var f := v.fields[i];
      ghost var added := FieldParts(prefix, v, i);
      Assoc(before, Parts(prefix, v, i), added);
      assert parts + [] == parts;
      if f.key != "" && f.key[0] == '@' { continue; }
      var shown := Label(prefix, f.key);
      match f.value {
        case Object(_) =>
          parts := SummarizeObjectIntoParts(shown, f.value, parts);
        case Array(_) =>
          var texts := ListFromValue(f.value);
          if texts != [] { parts := parts + [shown + ": " + Join(texts, ", ")]; }
        case _ =>
          var text := Scalar(f.value);
          if text.Some? { parts := parts + [shown + ": " + text.value]; }
      }
    }
  }

  // ---------- what stands for an object ----------

  /** The text of a value that is no list and no object: a text that is not blank, a number or a truth value. */
  predicate IsText(v: Json, text: string) {
    || (v.String? && text == Trim(v.s, RustSpace) && text != "")
    || (v.Number? && text == v.text)
    || (v.Bool? && text == if v.b then "true" else "false")
  }

  lemma ScalarMeans(v: Json, text: string)
    ensures Scalar(v) == Some(text) <==> IsText(v, text)
  {
    hide Trim;
  }

  /** The first field by this key has this text. */
  predicate FieldText(fields: seq<Field>, key: string, text: string) {
    exists i :: && 0 <= i < |fields| && fields[i].key == key && IsText(fields[i].value, text)
                && forall j :: 0 <= j < i ==> fields[j].key != key
  }

  lemma {:induction false} GetMeans(fields: seq<Field>, key: string, i: nat)
    requires i < |fields| && fields[i].key == key && forall j :: 0 <= j < i ==> fields[j].key != key
    ensures Get(fields, key) == Some(fields[i].value)
  {
    if i > 0 { GetMeans(fields[1..], key, i - 1); }
  }

  lemma {:induction false} GetFinds(fields: seq<Field>, key: string) returns (i: nat)
    requires Get(fields, key).Some?
    ensures i < |fields| && fields[i].key == key && forall j :: 0 <= j < i ==> fields[j].key != key
  {
    if fields[0].key == key {
      i := 0;
    } else {
      var k := GetFinds(fields[1..], key);
      i := k + 1;
      forall j | 0 <= j < i ensures fields[j].key != key { if j > 0 { assert fields[1..][j - 1] == fields[j]; } }
    }
  }

  lemma NamedMeans(fields: seq<Field>, key: string, text: string)
    ensures Named(fields, key) == Some(text) <==> FieldText(fields, key, text)
  {
    hide Scalar, IsText;
    if i: nat :| && i < |fields| && fields[i].key == key && IsText(fields[i].value, text)
                 && forall j :: 0 <= j < i ==> fields[j].key != key {
      GetMeans(fields, key, i);
      ScalarMeans(fields[i].value, text);
    }
    if Named(fields, key) == Some(text) {
      var i := GetFinds(fields, key);
      GetMeans(fields, key, i);
      ScalarMeans(fields[i].value, text);
    }
  }

  /** An object that has a name is listed by its name, one that only has a title by its title. */
  lemma NamedObject(fields: seq<Field>, text: string)
    ensures FieldText(fields, "name", text) ==> Leaves(Object(fields)) == [text]
    ensures FieldText(fields, "title", text) && (forall name :: !FieldText(fields, "name", name)) ==>
              Leaves(Object(fields)) == [text]
  {
    hide Named, FieldText, Parts, Join;
    NamedMeans(fields, "name", text);
    NamedMeans(fields, "title", text);
    if Named(fields, "name").Some? { NamedMeans(fields, "name", Named(fields, "name").value); }
  }

  // ---------- the lines of a summary ----------

  /** The parts one after the other with the separator between any two. */
  lemma {:induction false} JoinMeans(parts: seq<string>, sep: string)
    ensures parts == [] ==> Join(parts, sep) == ""
    ensures |parts| == 1 ==> Join(parts, sep) == parts[0]
    ensures |parts| > 1 ==> Join(parts, sep) == parts[0] + (sep + Join(parts[1..], sep))
  {
    if |parts| > 1 {
      var n := |parts| - 1;
      JoinMeans(parts[..n], sep);
      assert parts[1..][..n - 1] == parts[..n][1..];
      if n > 1 {
        JoinSteps(parts[0], sep, Join(parts[..n][1..], sep), parts[n]);
      } else {
        assert parts[1..] == [parts[1]];
        assert parts[..1] == [parts[0]];
        Assoc(parts[0], sep, parts[1]);
      }
    }
  }

  lemma JoinSteps(a: string, sep: string, mid: string, z: string)
    ensures a + (sep + mid) + sep + z == a + (sep + (mid + sep + z))
  {
  }

  /** An object without a name and a title is listed by its lines, or not at all when there are none. */
  lemma UnnamedObject(fields: seq<Field>)
    requires forall text :: !FieldText(fields, "name", text) && !FieldText(fields, "title", text)
    ensures var parts := Parts("", Object(fields), |fields|);
            Leaves(Object(fields)) == if parts == [] then [] else [Join(parts, "; ")]
  {
    hide Named, FieldText, Parts, Join;
    if Named(fields, "name").Some? { NamedMeans(fields, "name", Named(fields, "name").value); }
    if Named(fields, "title").Some? { NamedMeans(fields, "title", Named(fields, "title").value); }
  }

  function Spaced(key: string): (r: string)
    ensures |r| == |key| && forall i :: 0 <= i < |key| ==> r[i] == if key[i] == '_' then ' ' else key[i]
  {
    seq(|key|, i requires 0 <= i < |key| => if key[i] == '_' then ' ' else key[i])
  }

  /** The label of a field that is reached over these keys. */
  function LabelOf(prefix: string, keys: seq<string>): string
    decreases |keys|
  {
    if keys == [] then prefix
    else LabelOf(if prefix == "" then Spaced(keys[0]) else prefix + " " + Spaced(keys[0]), keys[1..])
  }

  /** The value is shown as its own text, or a list by the distinct texts in it. */
  predicate Shows(v: Json, text: string) {
    IsText(v, text) || (v.Array? && Distinct(Leaves(v)) != [] && text == Join(Distinct(Leaves(v)), ", "))
  }

  /** Over these keys, the first that of field `i`, none starting with `@`, a shown value is reached. */
  predicate Reaches(v: Json, i: nat, keys: seq<string>, text: string)
    decreases |keys|
  {
    && v.Object? && i < |v.fields| && keys != [] && v.fields[i].key == keys[0]
    && (keys[0] == "" || keys[0][0] != '@')
    && var inner := v.fields[i].value;
       if |keys| == 1 then Shows(inner, text)
       else inner.Object? && exists j: nat :: j < |inner.fields| && Reaches(inner, j, keys[1..], text)
  }

  lemma LabelIsSpaced(prefix: string, key: string)
    ensures Label(prefix, key) == if prefix == "" then Spaced(key) else prefix + " " + Spaced(key)
  {
  }

  ghost predicate LineUpTo(prefix: string, v: Json, n: nat, x: string) {
    exists i: nat, keys, text :: i < n && Reaches(v, i, keys, text) && x == LabelOf(prefix, keys) + ": " + text
  }

  ghost predicate LineOf(prefix: string, v: Json, i: nat, x: string) {
    exists keys, text :: Reaches(v, i, keys, text) && x == LabelOf(prefix, keys) + ": " + text
  }

  lemma ShownLine(prefix: string, v: Json, i: nat, x: string)
    requires v.Object? && i < |v.fields| && !v.fields[i].value.Object?
    ensures x in FieldParts(prefix, v, i) <==> LineOf(prefix, v, i, x)
  {
    hide Strip, Trim, Distinct, Leaves, Join, Label;
    var f := v.fields[i];
    LabelIsSpaced(prefix, f.key);
    assert [f.key][1..] == [];
    assert LabelOf(prefix, [f.key]) == Label(prefix, f.key);
    forall text ensures Scalar(f.value) == Some(text) <==> IsText(f.value, text) { ScalarMeans(f.value, text); }
    if x in FieldParts(prefix, v, i) {
      var text :| Shows(f.value, text) && x == Label(prefix, f.key) + ": " + text;
      assert Reaches(v, i, [f.key], text);
    }
    if keys, text :| Reaches(v, i, keys, text) && x == LabelOf(prefix, keys) + ": " + text {
      assert |keys| == 1 && keys == [f.key];
      assert Shows(f.value, text);
    }
  }

  /** The summary of an object has exactly the lines of the values reached in it, each under the keys on the
      way to it. */
  lemma {:induction false} SummaryLines(prefix: string, v: Json, n: nat, x: string)
    requires v.Object? && n <= |v.fields|
    ensures x in Parts(prefix, v, n) <==> LineUpTo(prefix, v, n, x)
    decreases v, 1, n
  {
    hide FieldParts, Reaches, LabelOf;
    if n > 0 {
      SummaryLines(prefix, v, n - 1, x);
      FieldLines(prefix, v, n - 1, x);
    }
  }

  lemma {:induction false} FieldLines(prefix: string, v: Json, i: nat, x: string)
    requires v.Object? && i < |v.fields|
    ensures x in FieldParts(prefix, v, i) <==> LineOf(prefix, v, i, x)
    decreases v, 0, i
  {
    hide Scalar, IsText, Distinct, Leaves, Join, Label, Shows;
    var f := v.fields[i];
    if !f.value.Object? {
      ShownLine(prefix, v, i, x);
    } else if f.key == "" || f.key[0] != '@' {
      var shown := Label(prefix, f.key);
      LabelIsSpaced(prefix, f.key);
      SummaryLines(shown, f.value, |f.value.fields|, x);
      InnerLine(prefix, v, i, shown, x);
    }
  }

  lemma NoShownObject(v: Json, text: string)
    requires v.Object?
    ensures !Shows(v, text)
  {
  }

  lemma ReachesInner(v: Json, i: nat, keys: seq<string>, text: string)
    requires Reaches(v, i, keys, text) && v.fields[i].value.Object?
    ensures |keys| > 1
    ensures exists j: nat :: j < |v.fields[i].value.fields| && Reaches(v.fields[i].value, j, keys[1..], text)
  {
  }

  lemma InnerLine(prefix: string, v: Json, i: nat, shown: string, x: string)
    requires v.Object? && i < |v.fields| && v.fields[i].value.Object?
    requires v.fields[i].key == "" || v.fields[i].key[0] != '@'
    requires shown == if prefix == "" then Spaced(v.fields[i].key) else prefix + " " + Spaced(v.fields[i].key)
    ensures LineUpTo(shown, v.fields[i].value, |v.fields[i].value.fields|, x) <==> LineOf(prefix, v, i, x)
  {
    hide Shows, Spaced;
    var key, inner := v.fields[i].key, v.fields[i].value;
    if j: nat, keys, text :| j < |inner.fields| && Reaches(inner, j, keys, text)
                             && x == LabelOf(shown, keys) + ": " + text {
      var longer := [key] + keys;
      assert longer[1..] == keys;
      assert Reaches(v, i, longer, text);
    }
    if keys, text :| Reaches(v, i, keys, text) && x == LabelOf(prefix, keys) + ": " + text {
      NoShownObject(inner, text);
      ReachesInner(v, i, keys, text);
      var j: nat :| j < |inner.fields| && Reaches(inner, j, keys[1..], text);
    }
  }
}
