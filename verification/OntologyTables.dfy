/** The vocabulary and the aliases the program ships with. */
module OntologyTables {
  import opened Text
  import opened Ontology

  const FAMILY: set<string> :=
    {"PARENT_OF", "CHILD_OF", "SIBLING_OF", "SPOUSE_OF", "FAMILY_OF", "GUARDIAN_OF", "WARD_OF"}
  const BONDS: set<string> := {"RELATED_TO", "ALLY_OF", "FRIEND_OF", "CONFIDANT_OF", "RIVAL_OF", "ENEMY_OF"}
  const FEELINGS: set<string> := {"ROMANTIC_WITH", "LOVES", "MENTOR_OF", "MENTEE_OF", "KNOWS_SECRET_OF"}
  const DUTIES: set<string> := {"COMMANDS", "SERVES", "PROTECTS", "BETRAYED", "OWES_DEBT_TO"}

  const TYPES: set<string> := FAMILY + BONDS + FEELINGS + DUTIES

  /** The aliases of one type, as they are written down. */
  datatype Row = Row(relation: string, keys: seq<string>)

  const RIVAL := Row("RIVAL_OF", ["rival", "rivalry", "rivals", "라이벌", "경쟁자", "경쟁"])
  const ALLY := Row("ALLY_OF", ["ally", "allies", "alliance", "동맹", "아군", "동료"])
  const ENEMY := Row("ENEMY_OF", ["enemy", "enemies", "foe", "nemesis", "적", "원수", "적수"])
  const FRIEND := Row("FRIEND_OF", ["friend", "friends", "friendship", "친구", "벗"])
  const CONFIDANT := Row("CONFIDANT_OF", ["confidant", "confidante"])
  const ROMANTIC := Row("ROMANTIC_WITH", ["lover", "lovers", "romance", "romantic", "partner", "연인", "애인"])
  const LOVES := Row("LOVES", ["crush", "unrequited", "loves", "짝사랑"])
  const MENTOR := Row("MENTOR_OF", ["mentor", "teacher", "master", "스승", "멘토", "사부"])
  const MENTEE := Row("MENTEE_OF", ["mentee", "student", "disciple", "apprentice", "pupil", "제자", "문하생"])
  const PARENT := Row("PARENT_OF", ["parent", "father", "mother", "mom", "dad", "부모", "아버지", "어머니"])
  const CHILD := Row("CHILD_OF", ["child", "son", "daughter", "자식", "자녀", "아들", "딸"])
  const SIBLING := Row("SIBLING_OF", ["sibling", "brother", "sister", "형제", "자매", "남매"])
  const SPOUSE := Row("SPOUSE_OF", ["spouse", "husband", "wife", "married", "부부", "배우자"])
  const KIN := Row("FAMILY_OF", ["family", "kin", "relative", "가족", "혈육"])
  const GUARDIAN := Row("GUARDIAN_OF", ["guardian", "protector guardian", "보호자", "후견인"])
  const WARD := Row("WARD_OF", ["ward"])
  const COMMANDS := Row("COMMANDS", ["commander", "boss", "superior"])
  const SERVES := Row("SERVES", ["servant", "subordinate", "retainer"])
  const PROTECTS := Row("PROTECTS", ["protector", "guard"])
  const BETRAYED := Row("BETRAYED", ["betrayal", "betrayer", "traitor", "배신", "배신자"])
  const OWES := Row("OWES_DEBT_TO", ["debtor", "debt"])

  const FIRST: seq<Row> := [RIVAL, ALLY, ENEMY, FRIEND]
  const SECOND: seq<Row> := [CONFIDANT, ROMANTIC, MENTOR, MENTEE]
  const THIRD: seq<Row> := [PARENT, CHILD, SIBLING, SPOUSE]
  const FOURTH: seq<Row> := [KIN, GUARDIAN, WARD, COMMANDS]
  const FIFTH: seq<Row> := [SERVES, PROTECTS, BETRAYED, OWES]
  const ROWS: seq<Row> := FIRST + SECOND + THIRD + FOURTH + FIFTH + [LOVES]

  /** The rows as pairs of an alias and its type. */
  function RowPairs(r: Row, n: nat): seq<(string, string)>
    requires n <= |r.keys|
  {
    if n == 0 then [] else RowPairs(r, n - 1) + [(r.keys[n - 1], r.relation)]
  }

  function Pairs(rows: seq<Row>): seq<(string, string)> {
    if rows == [] then [] else Pairs(rows[..|rows| - 1]) + RowPairs(rows[|rows| - 1], |rows[|rows| - 1].keys|)
  }

  /** The shipped tables, built as the program builds them. */
  const SHIPPED: Tables := Tables(TYPES, AliasTable(Pairs(ROWS)))

  /** A small letter or a Hangul syllable. */
  predicate Small(c: char) {
    'a' <= c <= 'z' || '\U{AC00}' <= c <= '\U{D7A3}'
  }

  predicate LowerWord(k: string) {
    k != "" && forall i :: 0 <= i < |k| ==> Small(k[i])
  }

  /** An alias is folded onto itself and is not the own key of a type: it is one word, or longer than
      every type. */
  predicate Apart(k: string) {
    (LowerWord(k) || k == "protector guardian") && k !in {"commands", "serves", "protects", "betrayed", "loves"}
  }

  predicate GoodRow(r: Row) {
    forall k <- r.keys :: Apart(k) || (k == "loves" && r.relation == "LOVES" && LowerWord(k))
  }

  lemma RivalAllyKeys(k: string)
    requires k in RIVAL.keys || k in ALLY.keys
    ensures Apart(k)
  {
  }

  lemma EnemyFriendKeys(k: string)
    requires k in ENEMY.keys || k in FRIEND.keys
    ensures Apart(k)
  {
  }

  lemma FirstGood(r: Row)
    requires r in FIRST
    ensures GoodRow(r)
  {
    hide Apart;
    forall k | k in r.keys ensures Apart(k) {
      if r == RIVAL || r == ALLY { RivalAllyKeys(k); } else { EnemyFriendKeys(k); }
    }
  }

  lemma ConfidantRomanticKeys(k: string)
    requires k in CONFIDANT.keys || k in ROMANTIC.keys
    ensures Apart(k)
  {
  }

  lemma MentorKeys(k: string)
    requires k in MENTOR.keys
    ensures Apart(k)
  {
  }

  lemma MenteeKeys(k: string)
    requires k in MENTEE.keys
    ensures Apart(k)
  {
  }

  lemma SecondGood(r: Row)
    requires r in SECOND
    ensures GoodRow(r)
  {
    hide Apart;
    forall k | k in r.keys ensures Apart(k) {
      if r == MENTOR { MentorKeys(k); } else if r == MENTEE { MenteeKeys(k); } else { ConfidantRomanticKeys(k); }
    }
  }

  lemma ParentKeys(k: string)
    requires k in PARENT.keys
    ensures Apart(k)
  {
  }

  lemma ChildKeys(k: string)
    requires k in CHILD.keys
    ensures Apart(k)
  {
  }

  lemma SiblingKeys(k: string)
    requires k in SIBLING.keys
    ensures Apart(k)
  {
  }

  lemma SpouseKeys(k: string)
    requires k in SPOUSE.keys
    ensures Apart(k)
  {
  }

  lemma ThirdGood(r: Row)
    requires r in THIRD
    ensures GoodRow(r)
  {
    hide Apart;
    forall k | k in r.keys ensures Apart(k) {
      if r == PARENT { ParentKeys(k); } else if r == CHILD { ChildKeys(k); }
      else if r == SIBLING { SiblingKeys(k); } else { SpouseKeys(k); }
    }
  }

  lemma KinGuardianKeys(k: string)
    requires k in KIN.keys || k in GUARDIAN.keys
    ensures Apart(k)
  {
  }

  lemma WardCommandsKeys(k: string)
    requires k in WARD.keys || k in COMMANDS.keys
    ensures Apart(k)
  {
  }

  lemma FourthGood(r: Row)
    requires r in FOURTH
    ensures GoodRow(r)
  {
    hide Apart;
    forall k | k in r.keys ensures Apart(k) {
      if r == KIN || r == GUARDIAN { KinGuardianKeys(k); } else { WardCommandsKeys(k); }
    }
  }

  lemma ServesProtectsKeys(k: string)
    requires k in SERVES.keys || k in PROTECTS.keys
    ensures Apart(k)
  {
  }

  lemma BetrayedOwesKeys(k: string)
    requires k in BETRAYED.keys || k in OWES.keys
    ensures Apart(k)
  {
  }

  lemma FifthGood(r: Row)
    requires r in FIFTH
    ensures GoodRow(r)
  {
    hide Apart;
    forall k | k in r.keys ensures Apart(k) {
      if r == SERVES || r == PROTECTS { ServesProtectsKeys(k); } else { BetrayedOwesKeys(k); }
    }
  }

  lemma LovesGood()
    ensures GoodRow(LOVES)
  {
  }

  lemma Listed(r: Row)
    requires r in ROWS
    ensures r.relation in TYPES
  {
  }

  /** Capital letters with single underscores between them. */
  predicate Capitals(s: string) {
    forall i :: 0 <= i < |s| ==> CapitalAt(s, i)
  }

  predicate CapitalAt(s: string, i: nat)
    requires i < |s|
  {
    'A' <= s[i] <= 'Z' || (s[i] == '_' && 0 < i < |s| - 1 && s[i - 1] != '_')
  }

  predicate GoodType(t: string) {
    0 < |t| <= 15 && Capitals(t) && ('_' in t || t in {"LOVES", "COMMANDS", "SERVES", "PROTECTS", "BETRAYED"})
  }

  lemma Types1(t: string)
    requires t in FAMILY
    ensures GoodType(t)
  {
  }

  lemma Types2(t: string)
    requires t in BONDS
    ensures GoodType(t)
  {
  }

  lemma Types3(t: string)
    requires t in FEELINGS || t in DUTIES
    ensures GoodType(t)
  {
  }

  lemma RowGood(r: Row)
    requires r in ROWS
    ensures GoodRow(r)
  {
    hide GoodRow;
    if r in FIRST { FirstGood(r); }
    else if r in SECOND { SecondGood(r); }
    else if r in THIRD { ThirdGood(r); }
    else if r in FOURTH { FourthGood(r); }
    else if r in FIFTH { FifthGood(r); }
    else { LovesGood(); }
  }

  lemma {:induction false} InTable(pairs: seq<(string, string)>, k: string) returns (p: (string, string))
    requires k in AliasTable(pairs)
    ensures p in pairs && AliasKey(p.0) == k && AliasTable(pairs)[k] == p.1
  {
    hide AliasKey;
    p := pairs[|pairs| - 1];
    if AliasKey(p.0) != k { p := InTable(pairs[..|pairs| - 1], k); }
  }

  lemma {:induction false} InRow(r: Row, n: nat, p: (string, string))
    requires n <= |r.keys| && p in RowPairs(r, n)
    ensures p.0 in r.keys && p.1 == r.relation
  {
    if p != (r.keys[n - 1], r.relation) { InRow(r, n - 1, p); }
  }

  lemma {:induction false} InPairs(rows: seq<Row>, p: (string, string)) returns (r: Row)
    requires p in Pairs(rows)
    ensures r in rows && p.0 in r.keys && p.1 == r.relation
  {
    hide RowPairs;
    r := rows[|rows| - 1];
    if p in RowPairs(r, |r.keys|) {
      InRow(r, |r.keys|, p);
    } else {
      r := InPairs(rows[..|rows| - 1], p);
    }
  }

  /** A word in lower case is its own alias key, and so is the one alias of two words. */
  lemma FoldsOntoItself(raw: string)
    requires LowerWord(raw) || raw == "protector guardian"
    ensures AliasKey(raw) == raw
  {
    hide AliasKey, Token, LowerWord;
    if LowerWord(raw) {
      LowerToken(raw);
      TokenOfToken(raw);
      KeyIsToken(raw);
    } else {
      Guardian();
      TokenOfKey("protector_guardian");
      KeyIsToken(raw);
    }
  }

  lemma LowerToken(raw: string)
    requires LowerWord(raw)
    ensures IsToken(raw) && KeyOf(raw) == raw
  {
    assert forall i :: 0 <= i < |raw| ==> Small(raw[i]) && IsWord(raw[i]) && LowerChar(raw[i]) == raw[i];
  }

  lemma Guardian()
    ensures IsToken("protector_guardian") && KeyOf("protector_guardian") == "protector guardian"
  {
    var t := "protector_guardian";
    forall i | 0 <= i < |t| ensures IsWord(t[i]) <==> i != 9 {}
    assert t[9] == '_';
  }

  /** A folded alias comes from a row that holds it as written. */
  lemma InMap(rows: seq<Row>, k: string) returns (r: Row)
    requires (forall r <- rows :: GoodRow(r)) && k in AliasTable(Pairs(rows))
    ensures r in rows && k in r.keys && AliasTable(Pairs(rows))[k] == r.relation
  {
    hide AliasTable, Pairs, AliasKey, LowerWord;
    var p := InTable(Pairs(rows), k);
    r := InPairs(rows, p);
    assert GoodRow(r);
    FoldsOntoItself(p.0);
  }

  /** A type's own key, and why it is no other type's alias. */
  lemma TypeKey(t: string)
    requires GoodType(t)
    ensures Trim(t, PySpace) == t && CanonicalToken(t) == t
    ensures !Apart(AliasKey(t))
    ensures AliasKey(t) == "loves" ==> t == "LOVES"
  {
    hide Trim, Collapse, AliasKey, Token;
    IsTokenOf(t);
    TokenOfToken(t);
    KeyIsToken(t);
    OwnKey(t);
  }

  lemma IsTokenOf(t: string)
    requires t != "" && Capitals(t)
    ensures IsToken(t) && Upper(t) == t
  {
    forall i | 0 <= i < |t| ensures (IsWord(t[i]) || t[i] == '_') && UpperChar(t[i]) == t[i] {
      assert CapitalAt(t, i);
    }
    forall i | 0 < i < |t| ensures IsWord(t[i - 1]) || IsWord(t[i]) {
      assert CapitalAt(t, i) && CapitalAt(t, i - 1);
    }
    assert CapitalAt(t, 0) && CapitalAt(t, |t| - 1);
  }

  lemma OwnKey(t: string)
    requires GoodType(t)
    ensures !Apart(KeyOf(t))
    ensures KeyOf(t) == "loves" ==> t == "LOVES"
  {
    hide Capitals;
    if '_' in t {
      var i :| 0 <= i < |t| && t[i] == '_';
      assert KeyOf(t)[i] == ' ';
      assert ' ' !in "loves";
    } else {
      OneWordKeys();
    }
  }

  lemma OneWordKeys()
    ensures KeyOf("LOVES") == "loves" && KeyOf("COMMANDS") == "commands" && KeyOf("SERVES") == "serves"
    ensures KeyOf("PROTECTS") == "protects" && KeyOf("BETRAYED") == "betrayed"
  {
  }

  lemma TypeGood(t: string)
    requires t in TYPES
    ensures GoodType(t) && t != ""
  {
    hide Capitals;
    if t in FAMILY { Types1(t); } else if t in BONDS { Types2(t); } else { Types3(t); }
  }

  /** A type read as a text is its own alias or none. */
  lemma OwnAlias(rows: seq<Row>, t: string, k: string)
    requires (forall r <- rows :: GoodRow(r)) && k in AliasTable(Pairs(rows))
    requires !Apart(k)
    requires k == "loves" ==> t == "LOVES"
    ensures AliasTable(Pairs(rows))[k] == t
  {
    hide AliasTable, Pairs, Apart, LowerWord;
    var r := InMap(rows, k);
    assert GoodRow(r);
  }

  lemma RowsGood()
    ensures forall r <- ROWS :: GoodRow(r)
  {
    hide GoodRow;
    forall r | r in ROWS ensures GoodRow(r) { RowGood(r); }
  }

  lemma TypeStays(t: string)
    requires t in TYPES
    ensures Stays(SHIPPED, t)
  {
    hide Trim, AliasKey, CanonicalToken, AliasTable, Pairs, GoodType, Apart, GoodRow;
    TypeGood(t);
    TypeKey(t);
    RowsGood();
    var k := AliasKey(t);
    if k in SHIPPED.aliases { OwnAlias(ROWS, t, k); }
  }

  lemma ShippedIsClosed()
    ensures Closed(SHIPPED)
  {
    hide AliasTable, Pairs, Stays, GoodRow;
    assert DEFAULT in BONDS;
    TypeStays(DEFAULT);
    RowsGood();
    forall k | k in SHIPPED.aliases ensures Stays(SHIPPED, SHIPPED.aliases[k]) {
      var r := InMap(ROWS, k);
      Listed(r);
      TypeStays(r.relation);
    }
  }

  /** The shipped table's keys are folded and its types closed, so normalising with it is idempotent on
      every input. */
  lemma ShippedIsIdempotent(raw: Option<string>)
    ensures Keyed(SHIPPED) && Closed(SHIPPED) && Idempotent(SHIPPED, raw)
  {
    hide Idempotent, AliasTable, Pairs, Keyed, Closed;
    BuiltKeyed(TYPES, Pairs(ROWS));
    ShippedIsClosed();
    NormalizeTwice(SHIPPED);
  }

  /** No alias gets lost in the folding. */
  lemma AliasesAreKept(rows: seq<Row>, r: Row, k: string)
    requires (forall q <- rows :: GoodRow(q)) && r in rows && k in r.keys
    ensures k in AliasTable(Pairs(rows)) && AliasKey(k) == k && k != ""
  {
    hide AliasKey, AliasTable, Pairs, RowPairs;
    InAllPairs(rows, r, k);
    PairIn(Pairs(rows), (k, r.relation));
    assert GoodRow(r);
    hide LowerWord;
    FoldsOntoItself(k);
  }

  /** Where several rows list an alias the last one has it. */
  lemma {:induction false} LastRowWins(rows: seq<Row>, i: nat, k: string)
    requires (forall q <- rows :: GoodRow(q)) && i < |rows| && k in rows[i].keys
    requires forall j :: i < j < |rows| ==> k !in rows[j].keys
    ensures k in AliasTable(Pairs(rows)) && AliasTable(Pairs(rows))[k] == rows[i].relation
  {
    hide AliasKey, AliasTable, GoodRow, RowPairs;
    var n := |rows| - 1;
    var front, last := rows[..n], rows[n];
    assert forall q <- front :: q in rows;
    if i == n {
      OwnRowWins(front, last, k);
    } else {
      assert forall j :: i < j < n ==> front[j] == rows[j];
      LastRowWins(front, i, k);
      RowPassesBy(Pairs(front), last, |last.keys|, k);
    }
  }

  lemma OwnRowWins(front: seq<Row>, last: Row, k: string)
    requires GoodRow(last) && k in last.keys
    ensures var pairs := Pairs(front) + RowPairs(last, |last.keys|);
            k in AliasTable(pairs) && AliasTable(pairs)[k] == last.relation
  {
    hide AliasTable, GoodRow, Pairs, RowPairs;
    assert last.keys[..|last.keys|] == last.keys;
    RowTakes(Pairs(front), last, |last.keys|, k);
  }

  /** After a row's first `n` aliases, each of them has the row's type. */
  lemma {:induction false} RowTakes(pairs: seq<(string, string)>, r: Row, n: nat, k: string)
    requires GoodRow(r) && n <= |r.keys| && k in r.keys[..n]
    ensures var all := pairs + RowPairs(r, n); k in AliasTable(all) && AliasTable(all)[k] == r.relation
  {
    hide AliasKey, GoodRow;
    var next := (r.keys[n - 1], r.relation);
    OneMore(pairs, RowPairs(r, n - 1), next);
    KeyFolds(r, k);
    KeyFolds(r, r.keys[n - 1]);
    if k != r.keys[n - 1] { RowTakes(pairs, r, n - 1, k); }
  }

  /** A row that does not list an alias leaves it alone. */
  lemma {:induction false} RowPassesBy(pairs: seq<(string, string)>, r: Row, n: nat, k: string)
    requires GoodRow(r) && n <= |r.keys| && k !in r.keys && k in AliasTable(pairs)
    ensures var all := pairs + RowPairs(r, n); k in AliasTable(all) && AliasTable(all)[k] == AliasTable(pairs)[k]
  {
    hide AliasKey, GoodRow;
    if n == 0 {
      assert pairs + [] == pairs;
    } else {
      OneMore(pairs, RowPairs(r, n - 1), (r.keys[n - 1], r.relation));
      KeyFolds(r, r.keys[n - 1]);
      RowPassesBy(pairs, r, n - 1, k);
    }
  }

  lemma OneMore(pairs: seq<(string, string)>, more: seq<(string, string)>, p: (string, string))
    ensures AliasTable(pairs + (more + [p])) == AliasTable(pairs + more)[AliasKey(p.0) := p.1]
  {
    hide AliasKey;
    var all := pairs + (more + [p]);
    assert all[..|all| - 1] == pairs + more && all[|all| - 1] == p;
  }

  lemma KeyFolds(r: Row, k: string)
    requires GoodRow(r) && k in r.keys
    ensures AliasKey(k) == k
  {
    hide AliasKey, LowerWord;
    FoldsOntoItself(k);
  }

  lemma ResolvesIn(types: set<string>, rows: seq<Row>, i: nat, k: string)
    requires (forall q <- rows :: GoodRow(q)) && i < |rows| && k in rows[i].keys
    ensures var table := AliasTable(Pairs(rows));
            && k in table && Normalize(Tables(types, table), Some(k)) == (table[k], true)
            && ((forall j :: i < j < |rows| ==> k !in rows[j].keys) ==> table[k] == rows[i].relation)
  {
    hide AliasKey, AliasTable, Pairs, GoodRow, Trim, Normalize;
    AliasesAreKept(rows, rows[i], k);
    KeyText(k);
    AliasHit(Tables(types, AliasTable(Pairs(rows))), k);
    if forall j :: i < j < |rows| ==> k !in rows[j].keys { LastRowWins(rows, i, k); }
  }

  lemma {:induction false} InAllPairs(rows: seq<Row>, r: Row, k: string)
    requires r in rows && k in r.keys
    ensures (k, r.relation) in Pairs(rows)
  {
    hide RowPairs;
    var n := |rows| - 1;
    if r == rows[n] {
      InOwnPairs(r, k, |r.keys|);
    } else {
      InAllPairs(rows[..n], r, k);
    }
  }

  lemma {:induction false} InOwnPairs(r: Row, k: string, n: nat)
    requires n <= |r.keys| && k in r.keys[..n]
    ensures (k, r.relation) in RowPairs(r, n)
  {
    if k != r.keys[n - 1] { InOwnPairs(r, k, n - 1); }
  }

  lemma {:induction false} PairIn(pairs: seq<(string, string)>, p: (string, string))
    requires p in pairs
    ensures AliasKey(p.0) in AliasTable(pairs)
  {
    hide AliasKey;
    var n := |pairs| - 1;
    if p != pairs[n] { PairIn(pairs[..n], p); }
  }

  // ---------- every alias has one row ----------

  /** A number that tells the aliases of different rows apart. */
  function Code(k: string): int {
    if k == "" then 0 else 5 * (k[0] as int) + 7 * (k[|k| / 2] as int) + 3 * (k[|k| - 1] as int) + |k|
  }

  /** An alias of row `i` can have this number. */
  predicate CodeOf(i: nat, code: int) {
    if i == 0 then code == 1600 || code == 1619 || code == 1725
      || code == 732331 || code == 732477 || code == 737087
    else if i == 1 then code == 1475 || code == 1571 || code == 1608
      || code == 696502 || code == 703287 || code == 706297
    else if i == 2 then code == 1580 || code == 1593 || code == 1609 || code == 1620
      || code == 751362 || code == 752887 || code == 768016
    else if i == 3 then code == 1523 || code == 1556 || code == 1569 || code == 708102 || code == 724186
    else if i == 4 then code == 1508 || code == 1587
    else if i == 5 then code == 1559 || code == 1598 || code == 1645 || code == 1713
      || code == 1721 || code == 763282 || code == 764002
    else if i == 6 then code == 1622 || code == 1705 || code == 731742 || code == 747632 || code == 775162
    else if i == 7 then code == 1546 || code == 1568 || code == 1630 || code == 1666
      || code == 1673 || code == 767022 || code == 770074
    else if i == 8 then code == 1482 || code == 1586 || code == 1621 || code == 1652
      || code == 720402 || code == 724071 || code == 745267
    else if i == 9 then code == 1535 || code == 1578 || code == 1685 || code == 695881
      || code == 709202 || code == 715582 || code == 754292
    else if i == 10 then code == 1647 || code == 1651 || code == 1735
      || code == 702002 || code == 731322 || code == 786307
    else if i == 11 then code == 1513 || code == 1616 || code == 1650
      || code == 1703 || code == 727682 || code == 750195
    else if i == 12 then code == 1603 || code == 1614 || code == 1693 || code == 733292 || code == 783732
    else if i == 13 then code == 1132 || code == 1553 || code == 737523 || code == 779007
    else if i == 14 then code == 1697
    else if i == 15 then code == 1525 || code == 1644 || code == 1723
    else if i == 16 then code == 1589 || code == 1655 || code == 1756
    else if i == 17 then code == 1499 || code == 1618
    else if i == 18 then code == 1501 || code == 1519 || code == 1664 || code == 739762 || code == 743363
    else if i == 19 then code == 1538 || code == 1660
    else if i == 20 then code == 1631 || code == 1714 || code == 1716 || code == 744635
    else false
  }

  lemma EarlyOwner(i: nat, j: nat, code: int)
    requires i < 7 && CodeOf(i, code) && CodeOf(j, code)
    ensures i == j
  {
  }

  lemma MiddleOwner(i: nat, j: nat, code: int)
    requires 7 <= i < 14 && CodeOf(i, code) && CodeOf(j, code)
    ensures i == j
  {
  }

  lemma LateOwner(i: nat, j: nat, code: int)
    requires 14 <= i && 14 <= j && CodeOf(i, code) && CodeOf(j, code)
    ensures i == j
  {
  }

  lemma OneOwner(i: nat, j: nat, code: int)
    requires CodeOf(i, code) && CodeOf(j, code)
    ensures i == j
  {
    hide CodeOf;
    if i < 7 {
      EarlyOwner(i, j, code);
    } else if j < 7 {
      EarlyOwner(j, i, code);
    } else if i < 14 {
      MiddleOwner(i, j, code);
    } else if j < 14 {
      MiddleOwner(j, i, code);
    } else {
      LateOwner(i, j, code);
    }
  }

  lemma RivalCodes(k: string)
    requires k in RIVAL.keys
    ensures CodeOf(0, Code(k))
  {
    if k == "rival" {
      assert Code(k) == 1725;
    } else if k == "rivalry" {
      assert Code(k) == 1619;
    } else if k == "rivals" {
      assert Code(k) == 1600;
    } else if k == "라이벌" {
      assert Code(k) == 737087;
    } else if k == "경쟁자" {
      assert Code(k) == 732331;
    } else if k == "경쟁" {
      assert Code(k) == 732477;
    }
  }

  lemma AllyCodes(k: string)
    requires k in ALLY.keys
    ensures CodeOf(1, Code(k))
  {
    if k == "ally" {
      assert Code(k) == 1608;
    } else if k == "allies" {
      assert Code(k) == 1571;
    } else if k == "alliance" {
      assert Code(k) == 1475;
    } else if k == "동맹" {
      assert Code(k) == 706297;
    } else if k == "아군" {
      assert Code(k) == 696502;
    } else if k == "동료" {
      assert Code(k) == 703287;
    }
  }

  lemma EnemyCodes(k: string)
    requires k in ENEMY.keys
    ensures CodeOf(2, Code(k))
  {
    if k == "enemy" {
      assert Code(k) == 1580;
    } else if k == "enemies" {
      assert Code(k) == 1620;
    } else if k == "foe" {
      assert Code(k) == 1593;
    } else if k == "nemesis" {
      assert Code(k) == 1609;
    } else if k == "적" {
      assert Code(k) == 768016;
    } else if k == "원수" {
      assert Code(k) == 751362;
    } else if k == "적수" {
      assert Code(k) == 752887;
    }
  }

  lemma FriendCodes(k: string)
    requires k in FRIEND.keys
    ensures CodeOf(3, Code(k))
  {
    if k == "friend" {
      assert Code(k) == 1523;
    } else if k == "friends" {
      assert Code(k) == 1569;
    } else if k == "friendship" {
      assert Code(k) == 1556;
    } else if k == "친구" {
      assert Code(k) == 708102;
    } else if k == "벗" {
      assert Code(k) == 724186;
    }
  }

  lemma ConfidantCodes(k: string)
    requires k in CONFIDANT.keys
    ensures CodeOf(4, Code(k))
  {
    if k == "confidant" {
      assert Code(k) == 1587;
    } else if k == "confidante" {
      assert Code(k) == 1508;
    }
  }

  lemma RomanticCodes(k: string)
    requires k in ROMANTIC.keys
    ensures CodeOf(5, Code(k))
  {
    if k == "lover" {
      assert Code(k) == 1713;
    } else if k == "lovers" {
      assert Code(k) == 1598;
    } else if k == "romance" {
      assert Code(k) == 1559;
    } else if k == "romantic" {
      assert Code(k) == 1645;
    } else if k == "partner" {
      assert Code(k) == 1721;
    } else if k == "연인" {
      assert Code(k) == 764002;
    } else if k == "애인" {
      assert Code(k) == 763282;
    }
  }

  lemma MentorCodes(k: string)
    requires k in MENTOR.keys
    ensures CodeOf(6, Code(k))
  {
    if k == "mentor" {
      assert Code(k) == 1705;
    } else if k == "teacher" {
      assert Code(k) == 1622;
    } else if k == "master" {
      assert Code(k) == 1705;
    } else if k == "스승" {
      assert Code(k) == 747632;
    } else if k == "멘토" {
      assert Code(k) == 775162;
    } else if k == "사부" {
      assert Code(k) == 731742;
    }
  }

  lemma MenteeCodes(k: string)
    requires k in MENTEE.keys
    ensures CodeOf(7, Code(k))
  {
    if k == "mentee" {
      assert Code(k) == 1666;
    } else if k == "student" {
      assert Code(k) == 1630;
    } else if k == "disciple" {
      assert Code(k) == 1546;
    } else if k == "apprentice" {
      assert Code(k) == 1568;
    } else if k == "pupil" {
      assert Code(k) == 1673;
    } else if k == "제자" {
      assert Code(k) == 767022;
    } else if k == "문하생" {
      assert Code(k) == 770074;
    }
  }

  lemma ParentCodes(k: string)
    requires k in PARENT.keys
    ensures CodeOf(8, Code(k))
  {
    if k == "parent" {
      assert Code(k) == 1621;
    } else if k == "father" {
      assert Code(k) == 1586;
    } else if k == "mother" {
      assert Code(k) == 1621;
    } else if k == "mom" {
      assert Code(k) == 1652;
    } else if k == "dad" {
      assert Code(k) == 1482;
    } else if k == "부모" {
      assert Code(k) == 720402;
    } else if k == "아버지" {
      assert Code(k) == 745267;
    } else if k == "어머니" {
      assert Code(k) == 724071;
    }
  }

  lemma ChildCodes(k: string)
    requires k in CHILD.keys
    ensures CodeOf(9, Code(k))
  {
    if k == "child" {
      assert Code(k) == 1535;
    } else if k == "son" {
      assert Code(k) == 1685;
    } else if k == "daughter" {
      assert Code(k) == 1578;
    } else if k == "자식" {
      assert Code(k) == 754292;
    } else if k == "자녀" {
      assert Code(k) == 709202;
    } else if k == "아들" {
      assert Code(k) == 715582;
    } else if k == "딸" {
      assert Code(k) == 695881;
    }
  }

  lemma SiblingCodes(k: string)
    requires k in SIBLING.keys
    ensures CodeOf(10, Code(k))
  {
    if k == "sibling" {
      assert Code(k) == 1647;
    } else if k == "brother" {
      assert Code(k) == 1651;
    } else if k == "sister" {
      assert Code(k) == 1735;
    } else if k == "형제" {
      assert Code(k) == 786307;
    } else if k == "자매" {
      assert Code(k) == 731322;
    } else if k == "남매" {
      assert Code(k) == 702002;
    }
  }

  lemma SpouseCodes(k: string)
    requires k in SPOUSE.keys
    ensures CodeOf(11, Code(k))
  {
    if k == "spouse" {
      assert Code(k) == 1703;
    } else if k == "husband" {
      assert Code(k) == 1513;
    } else if k == "wife" {
      assert Code(k) == 1616;
    } else if k == "married" {
      assert Code(k) == 1650;
    } else if k == "부부" {
      assert Code(k) == 727682;
    } else if k == "배우자" {
      assert Code(k) == 750195;
    }
  }

  lemma KinCodes(k: string)
    requires k in KIN.keys
    ensures CodeOf(12, Code(k))
  {
    if k == "family" {
      assert Code(k) == 1614;
    } else if k == "kin" {
      assert Code(k) == 1603;
    } else if k == "relative" {
      assert Code(k) == 1693;
    } else if k == "가족" {
      assert Code(k) == 733292;
    } else if k == "혈육" {
      assert Code(k) == 783732;
    }
  }

  lemma GuardianCodes(k: string)
    requires k in GUARDIAN.keys
    ensures CodeOf(13, Code(k))
  {
    if k == "guardian" {
      assert Code(k) == 1553;
    } else if k == "protector guardian" {
      assert Code(k) == 1132;
    } else if k == "보호자" {
      assert Code(k) == 779007;
    } else if k == "후견인" {
      assert Code(k) == 737523;
    }
  }

  lemma WardCodes(k: string)
    requires k in WARD.keys
    ensures CodeOf(14, Code(k))
  {
    if k == "ward" {
      assert Code(k) == 1697;
    }
  }

  lemma CommandsCodes(k: string)
    requires k in COMMANDS.keys
    ensures CodeOf(15, Code(k))
  {
    if k == "commander" {
      assert Code(k) == 1525;
    } else if k == "boss" {
      assert Code(k) == 1644;
    } else if k == "superior" {
      assert Code(k) == 1723;
    }
  }

  lemma ServesCodes(k: string)
    requires k in SERVES.keys
    ensures CodeOf(16, Code(k))
  {
    if k == "servant" {
      assert Code(k) == 1756;
    } else if k == "subordinate" {
      assert Code(k) == 1589;
    } else if k == "retainer" {
      assert Code(k) == 1655;
    }
  }

  lemma ProtectsCodes(k: string)
    requires k in PROTECTS.keys
    ensures CodeOf(17, Code(k))
  {
    if k == "protector" {
      assert Code(k) == 1618;
    } else if k == "guard" {
      assert Code(k) == 1499;
    }
  }

  lemma BetrayedCodes(k: string)
    requires k in BETRAYED.keys
    ensures CodeOf(18, Code(k))
  {
    if k == "betrayal" {
      assert Code(k) == 1501;
    } else if k == "betrayer" {
      assert Code(k) == 1519;
    } else if k == "traitor" {
      assert Code(k) == 1664;
    } else if k == "배신" {
      assert Code(k) == 739762;
    } else if k == "배신자" {
      assert Code(k) == 743363;
    }
  }

  lemma OwesCodes(k: string)
    requires k in OWES.keys
    ensures CodeOf(19, Code(k))
  {
    if k == "debtor" {
      assert Code(k) == 1660;
    } else if k == "debt" {
      assert Code(k) == 1538;
    }
  }

  lemma LovesCodes(k: string)
    requires k in LOVES.keys
    ensures CodeOf(20, Code(k))
  {
    if k == "crush" {
      assert Code(k) == 1631;
    } else if k == "unrequited" {
      assert Code(k) == 1714;
    } else if k == "loves" {
      assert Code(k) == 1716;
    } else if k == "짝사랑" {
      assert Code(k) == 744635;
    }
  }

  lemma RowsAt()
    ensures |ROWS| == 21
    ensures ROWS[0] == RIVAL && ROWS[1] == ALLY && ROWS[2] == ENEMY && ROWS[3] == FRIEND
    ensures ROWS[4] == CONFIDANT && ROWS[5] == ROMANTIC && ROWS[6] == MENTOR && ROWS[7] == MENTEE
    ensures ROWS[8] == PARENT && ROWS[9] == CHILD && ROWS[10] == SIBLING && ROWS[11] == SPOUSE
    ensures ROWS[12] == KIN && ROWS[13] == GUARDIAN && ROWS[14] == WARD && ROWS[15] == COMMANDS
    ensures ROWS[16] == SERVES && ROWS[17] == PROTECTS && ROWS[18] == BETRAYED && ROWS[19] == OWES
    ensures ROWS[20] == LOVES
  {
  }

  lemma RowCodes(i: nat, k: string)
    requires i < |ROWS| && k in ROWS[i].keys
    ensures CodeOf(i, Code(k))
  {
    hide CodeOf, Code;
    RowsAt();
    match i {
      case 0 => RivalCodes(k);
      case 1 => AllyCodes(k);
      case 2 => EnemyCodes(k);
      case 3 => FriendCodes(k);
      case 4 => ConfidantCodes(k);
      case 5 => RomanticCodes(k);
      case 6 => MentorCodes(k);
      case 7 => MenteeCodes(k);
      case 8 => ParentCodes(k);
      case 9 => ChildCodes(k);
      case 10 => SiblingCodes(k);
      case 11 => SpouseCodes(k);
      case 12 => KinCodes(k);
      case 13 => GuardianCodes(k);
      case 14 => WardCodes(k);
      case 15 => CommandsCodes(k);
      case 16 => ServesCodes(k);
      case 17 => ProtectsCodes(k);
      case 18 => BetrayedCodes(k);
      case 19 => OwesCodes(k);
      case 20 => LovesCodes(k);
      case _ =>
    }
  }

  /** No two shipped rows list the same alias. */
  lemma AliasesHaveOneRow(i: nat, j: nat, k: string)
    requires i < |ROWS| && j < |ROWS| && k in ROWS[i].keys && k in ROWS[j].keys
    ensures i == j
  {
    hide CodeOf, Code;
    RowCodes(i, k);
    RowCodes(j, k);
    OneOwner(i, j, Code(k));
  }

  /** Every shipped alias is in the table under its own spelling and is normalised to the type of its
      row. */
  lemma AliasesResolve(i: nat, k: string)
    requires i < |ROWS| && k in ROWS[i].keys
    ensures k in SHIPPED.aliases && SHIPPED.aliases[k] == ROWS[i].relation
    ensures Normalize(SHIPPED, Some(k)) == (ROWS[i].relation, true)
  {
    hide AliasTable, Pairs, Normalize, GoodRow;
    RowsGood();
    ResolvesIn(TYPES, ROWS, i, k);
    forall j | i < j < |ROWS| ensures k !in ROWS[j].keys {
      if k in ROWS[j].keys { AliasesHaveOneRow(i, j, k); }
    }
  }
}
