/** Strings as the modelled programs use them: search, split, trim and ASCII case. */
module Text {

  datatype Option<+T> = None | Some(value: T)

  lemma Assoc<T>(a: seq<T>, b: seq<T>, c: seq<T>)
    ensures a + (b + c) == (a + b) + c
  {
  }

  lemma SplitAt<T>(s: seq<T>, k: nat)
    requires k <= |s|
    ensures s == s[..k] + s[k..]
  {
  }

  // ---------- searching ----------

  /** `p` stands in `s` at position `i`. */
  predicate OccursAt(s: string, p: string, i: int) {
    0 <= i && i + |p| <= |s| && s[i..i + |p|] == p
  }

  /** The first position at or after `from` where `p` stands in `s`. */
  function IndexFrom(s: string, p: string, from: nat): (r: Option<nat>)
    requires from <= |s|
    ensures r.Some? ==> from <= r.value && r.value + |p| <= |s| && OccursAt(s, p, r.value)
    ensures r.Some? ==> forall j :: from <= j < r.value ==> !OccursAt(s, p, j)
    ensures r.None? ==> forall j :: from <= j ==> !OccursAt(s, p, j)
    decreases |s| - from
  {
    if |s| - from < |p| then None
    else if s[from..from + |p|] == p then Some(from)
    else if from == |s| then None
    else IndexFrom(s, p, from + 1)
  }

  function IndexOf(s: string, p: string): (r: Option<nat>) {
    IndexFrom(s, p, 0)
  }

  /** The first occurrence is the only one with no occurrence before it. */
  lemma IndexFromIs(s: string, p: string, from: nat, i: nat)
    requires from <= i && OccursAt(s, p, i)
    requires forall j :: from <= j < i ==> !OccursAt(s, p, j)
    ensures IndexFrom(s, p, from) == Some(i)
  {
  }

  /** Text added at the end does not change the places that fit before it. */
  lemma OccursInPrefix(s: string, t: string, p: string, j: int)
    requires 0 <= j && j + |p| <= |s|
    ensures OccursAt(s + t, p, j) == OccursAt(s, p, j)
  {
    assert (s + t)[j..j + |p|] == s[j..j + |p|];
  }

  predicate Contains(s: string, p: string) {
    exists i :: 0 <= i <= |s| && OccursAt(s, p, i)
  }

  function Concat(parts: seq<string>): string {
    if parts == [] then "" else parts[0] + Concat(parts[1..])
  }

  lemma ConcatSnoc(parts: seq<string>, last: string)
    ensures Concat(parts + [last]) == Concat(parts) + last
  {
    if parts == [] {
      assert parts + [last] == [last];
    } else {
      assert (parts + [last])[1..] == parts[1..] + [last];
    }
  }

  // ---------- ends of a string ----------

  /** The last `n` elements, or all of them: a slice `s[-n:]` with n > 0. */
  function Tail<T>(s: seq<T>, n: nat): seq<T> {
    if |s| <= n then s else s[|s| - n..]
  }

  lemma TailSize(s: string, n: nat)
    ensures |Tail(s, n)| <= n && (n > 0 ==> (Tail(s, n) == "" <==> s == ""))
    ensures |s| <= n ==> Tail(s, n) == s
  {
  }

  predicate IsSuffix(a: string, b: string) {
    |a| <= |b| && b[|b| - |a|..] == a
  }

  // ---------- trimming ----------

  type Space = char -> bool

  /** White_Space characters, the ones Rust's `str::trim` removes. */
  predicate RustSpace(c: char) {
    var n := c as int;
    9 <= n <= 13 || n == 32 || n == 0x85 || n == 0xA0 || n == 0x1680 || 0x2000 <= n <= 0x200A
    || n == 0x2028 || n == 0x2029 || n == 0x202F || n == 0x205F || n == 0x3000
  }

  /** Python's `str.strip` also removes the four ASCII separators. */
  predicate PySpace(c: char) {
    RustSpace(c) || 0x1C <= c as int <= 0x1F
  }

  predicate AllSpace(s: string, sp: Space) {
    forall i :: 0 <= i < |s| ==> sp(s[i])
  }

  predicate Trimmed(s: string, sp: Space) {
    s != "" ==> !sp(s[0]) && !sp(s[|s| - 1])
  }

  function TrimStart(s: string, sp: Space): (r: string)
    ensures IsSuffix(r, s) && AllSpace(s[..|s| - |r|], sp)
    ensures r != "" ==> !sp(r[0])
  {
    if s != "" && sp(s[0]) then TrimStart(s[1..], sp) else s
  }

  function TrimEnd(s: string, sp: Space): (r: string)
    ensures r <= s && AllSpace(s[|r|..], sp)
    ensures r != "" ==> !sp(r[|r| - 1])
  {
    if s != "" && sp(s[|s| - 1]) then TrimEnd(s[..|s| - 1], sp) else s
  }

  function Trim(s: string, sp: Space): (r: string)
    ensures Trimmed(r, sp) && |r| <= |s|
  {
    TrimEnd(TrimStart(s, sp), sp)
  }

  lemma ThreeParts(s: string, t: string, m: string)
    requires IsSuffix(t, s) && m <= t
    ensures s == s[..|s| - |t|] + m + t[|m|..]
  {
  }

  /** What trimming removes is white space on both ends. */
  lemma TrimSplits(s: string, sp: Space) returns (left: string, right: string)
    ensures s == left + Trim(s, sp) + right && AllSpace(left, sp) && AllSpace(right, sp)
  {
    var t := TrimStart(s, sp);
    var m := TrimEnd(t, sp);
    left, right := s[..|s| - |t|], t[|m|..];
    ThreeParts(s, t, m);
  }

  lemma TrimStartDrops(left: string, rest: string, sp: Space)
    requires AllSpace(left, sp) && (rest != "" ==> !sp(rest[0]))
    ensures TrimStart(left + rest, sp) == rest
  {
    if left == "" {
      assert left + rest == rest;
    } else {
      assert (left + rest)[1..] == left[1..] + rest;
      TrimStartDrops(left[1..], rest, sp);
    }
  }

  lemma TrimEndDrops(rest: string, right: string, sp: Space)
    requires AllSpace(right, sp) && (rest != "" ==> !sp(rest[|rest| - 1]))
    ensures TrimEnd(rest + right, sp) == rest
  {
    if right == "" {
      assert rest + right == rest;
    } else {
      var n := |right| - 1;
      assert (rest + right)[..|rest| + n] == rest + right[..n];
      TrimEndDrops(rest, right[..n], sp);
    }
  }

  /** Any way to cut white space off both ends down to a trimmed middle is the trim. */
  lemma TrimIs(s: string, left: string, mid: string, right: string, sp: Space)
    requires s == left + mid + right
    requires AllSpace(left, sp) && AllSpace(right, sp) && Trimmed(mid, sp)
    ensures Trim(s, sp) == mid
  {
    if mid == "" {
      assert s == (left + right) + "";
      TrimStartDrops(left + right, "", sp);
    } else {
      assert s == left + (mid + right);
      TrimStartDrops(left, mid + right, sp);
      TrimEndDrops(mid, right, sp);
    }
  }

  // ---------- ASCII case ----------

  function LowerChar(c: char): char {
    if 'A' <= c <= 'Z' then (c as int + 32) as char else c
  }

  function UpperChar(c: char): char {
    if 'a' <= c <= 'z' then (c as int - 32) as char else c
  }

  function Lower(s: string): (r: string)
    ensures |r| == |s| && forall i :: 0 <= i < |s| ==> r[i] == LowerChar(s[i])
  {
    seq(|s|, i requires 0 <= i < |s| => LowerChar(s[i]))
  }

  function Upper(s: string): (r: string)
    ensures |r| == |s| && forall i :: 0 <= i < |s| ==> r[i] == UpperChar(s[i])
  {
    seq(|s|, i requires 0 <= i < |s| => UpperChar(s[i]))
  }
}
