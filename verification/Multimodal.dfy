/** Image markers in chat messages: parsing them out, composing them back in, and preparing a
    conversation for a provider. */
module Multimodal {
  import opened Text

  const PREFIX: string := "[IMAGE:"
  const CLOSE: string := "]"
  const GAP: string := "\n\n"

  predicate Blank(s: string) {
    AllSpace(s, RustSpace)
  }

  function Strip(s: string): string {
    Trim(s, RustSpace)
  }

  /** A text read from left to right: what stays of it, the references found, and whether it ends
      inside a marker that is never closed. */
  datatype Scanned = Scanned(cleaned: string, refs: seq<string>, dangling: bool)

  /** One step of a reading, given where the next marker starts and closes. */
  function Continue(skipped: string, open: string, candidate: string, later: Scanned): Scanned {
    if candidate == "" then later.(cleaned := skipped + later.cleaned)
    else later.(cleaned := open + later.cleaned, refs := [candidate] + later.refs)
  }

  function Scan(s: string): Scanned
    decreases |s|
  {
    match IndexOf(s, PREFIX)
    case None => Scanned(s, [], false)
    case Some(i) =>
      match IndexFrom(s, CLOSE, i + 7)
      case None => Scanned(s, [], true)
      case Some(e) =>
        Continue(s[..e + 1], s[..i], Strip(s[i + 7..e]), Scan(s[e + 1..]))
  }

  /** The same reading by positions. */
  function ScanFrom(s: string, cursor: nat): Scanned
    requires cursor <= |s|
    decreases |s| - cursor
  {
    match IndexFrom(s, PREFIX, cursor)
    case None => Scanned(s[cursor..], [], false)
    case Some(i) =>
      match IndexFrom(s, CLOSE, i + 7)
      case None => Scanned(s[cursor..], [], true)
      case Some(e) =>
        Continue(s[cursor..e + 1], s[cursor..i], Strip(s[i + 7..e]), ScanFrom(s, e + 1))
  }

  lemma IndexShift(s: string, k: nat, p: string, from: nat)
    requires k <= from <= |s|
    ensures match IndexFrom(s, p, from)
            case None => IndexFrom(s[k..], p, from - k).None?
            case Some(i) => IndexFrom(s[k..], p, from - k) == Some(i - k)
    decreases |s| - from
  {
    if |s| - from >= |p| {
      assert s[k..][from - k..from - k + |p|] == s[from..from + |p|];
      if s[from..from + |p|] != p && from < |s| {
        IndexShift(s, k, p, from + 1);
      }
    }
  }

  /** Reading on from a position is reading the rest of the text. */
  lemma {:induction false} ScanShift(s: string, k: nat)
    requires k <= |s|
    ensures ScanFrom(s, k) == Scan(s[k..])
    decreases |s| - k
  {
    hide Strip, IndexFrom, OccursAt, Continue;
    IndexShift(s, k, PREFIX, k);
    match IndexFrom(s, PREFIX, k)
    case None =>
    case Some(i) =>
      IndexShift(s, k, CLOSE, i + 7);
      match IndexFrom(s, CLOSE, i + 7)
      case None =>
      case Some(e) =>
        ScanShift(s, e + 1);
        Slices(s, k, i, e);
  }

  lemma Slices(s: string, k: nat, i: nat, e: nat)
    requires k <= i && i + 7 <= e < |s|
    ensures s[k..][e - k + 1..] == s[e + 1..] && s[k..][..e - k + 1] == s[k..e + 1]
    ensures s[k..][i - k + 7..e - k] == s[i + 7..e] && s[k..][..i - k] == s[k..i]
  {
  }

  /** One unfolding of the reading. */
  lemma ScanFromStep(t: string, k: nat)
    requires k <= |t|
    ensures var start := IndexFrom(t, PREFIX, k);
            if start.None? then ScanFrom(t, k) == Scanned(t[k..], [], false)
            else var i := start.value; var close := IndexFrom(t, CLOSE, i + 7);
            if close.None? then ScanFrom(t, k) == Scanned(t[k..], [], true)
            else var e := close.value;
            ScanFrom(t, k) == Continue(t[k..e + 1], t[k..i], Strip(t[i + 7..e]), ScanFrom(t, e + 1))
  {
    hide IndexFrom, OccursAt, Strip, Continue;
  }

  /** What the reading does at the next marker. */
  lemma AtMarker(s: string, cursor: nat)
    requires cursor <= |s|
    ensures IndexFrom(s, PREFIX, cursor).None? ==> ScanFrom(s, cursor) == Scanned(s[cursor..], [], false)
    ensures IndexFrom(s, PREFIX, cursor).Some? ==>
            var start := IndexFrom(s, PREFIX, cursor).value;
            var now := ScanFrom(s, cursor);
            match IndexFrom(s, CLOSE, start + 7)
            case None => now.cleaned == s[cursor..start] + s[start..] && now.refs == []
            case Some(e) =>
              var candidate := Strip(s[start + 7..e]);
              var later := ScanFrom(s, e + 1);
              if candidate == ""
              then now.cleaned == s[cursor..start] + (s[start..e + 1] + later.cleaned) && now.refs == later.refs
              else now.cleaned == s[cursor..start] + later.cleaned && now.refs == [candidate] + later.refs
  {
    hide ScanFrom, Strip, IndexFrom, OccursAt;
    ScanFromStep(s, cursor);
    if IndexFrom(s, PREFIX, cursor).Some? {
      var start := IndexFrom(s, PREFIX, cursor).value;
      assert s[cursor..] == s[cursor..start] + s[start..];
      match IndexFrom(s, CLOSE, start + 7)
      case None =>
      case Some(e) =>
        assert s[cursor..e + 1] == s[cursor..start] + s[start..e + 1];
        Assoc(s[cursor..start], s[start..e + 1], ScanFrom(s, e + 1).cleaned);
    }
  }

  /** The parser: one cursor over the text. */
  method ParseImageMarkers(content: string) returns (text: string, refs: seq<string>)
    ensures text == Strip(Scan(content).cleaned) && refs == Scan(content).refs
  {
    hide Strip, Scan, ScanFrom, IndexFrom, OccursAt;
    ghost var all := ScanFrom(content, 0);
    refs := [];
    var cleaned := "";
    var cursor := 0;
    while IndexFrom(content, PREFIX, cursor).Some?
      invariant 0 <= cursor <= |content|
      invariant cleaned + ScanFrom(content, cursor).cleaned == all.cleaned
      invariant refs + ScanFrom(content, cursor).refs == all.refs
      decreases |content| - cursor
    {
      AtMarker(content, cursor);
      ghost var before := cleaned;
      var start := IndexFrom(content, PREFIX, cursor).value;
      cleaned := cleaned + content[cursor..start];
      var markerStart := start + 7;
      var close := IndexFrom(content, CLOSE, markerStart);
      if close.None? {
        Assoc(before, content[cursor..start], content[start..]);
        cleaned := cleaned + content[start..];
        assert refs + [] == refs;
        text := Strip(cleaned);
        WholeScan(content);
        return;
      }
      var end := close.value;
      ghost var later := ScanFrom(content, end + 1);
      var candidate := Strip(content[markerStart..end]);
      if candidate == "" {
        Assoc(before, content[cursor..start], content[start..end + 1] + later.cleaned);
        Assoc(cleaned, content[start..end + 1], later.cleaned);
        cleaned := cleaned + content[start..end + 1];
      } else {
        Assoc(before, content[cursor..start], later.cleaned);
        Assoc(refs, [candidate], later.refs);
        refs := refs + [candidate];
      }
      cursor := end + 1;
    }
    AtMarker(content, cursor);
    assert refs + [] == refs;
    if cursor < |content| {
      cleaned := cleaned + content[cursor..];
    } else {
      assert cleaned + "" == cleaned;
    }
    WholeScan(content);
    text := Strip(cleaned);
  }

  lemma WholeScan(content: string)
    ensures ScanFrom(content, 0) == Scan(content)
  {
    assert content[0..] == content;
    ScanShift(content, 0);
  }

  // ---------- composing ----------

  function Marker(ref: string): string {
    PREFIX + ref + CLOSE
  }

  function Markers(refs: seq<string>): string {
    if refs == [] then ""
    else if |refs| == 1 then Marker(refs[0])
    else Markers(refs[..|refs| - 1]) + "\n" + Marker(refs[|refs| - 1])
  }

  function Compose(text: string, refs: seq<string>): string {
    if Strip(text) == "" then Markers(refs) else Strip(text) + GAP + Markers(refs)
  }

  method ComposeMultimodalMessage(text: string, refs: seq<string>) returns (content: string)
    ensures content == Compose(text, refs)
  {
    hide Strip;
    content := "";
    var trimmed := Strip(text);
    if trimmed != "" {
      content := content + trimmed;
      content := content + GAP;
    }
    ghost var head := content;
    for index := 0 to |refs|
      invariant content == head + Markers(refs[..index])
    {
      assert refs[..index + 1][..index] == refs[..index];
      if index > 0 { content := content + "\n"; }
      content := content + PREFIX;
      content := content + refs[index];
      content := content + CLOSE;
      Steps(head, Markers(refs[..index]), if index > 0 then "\n" else "", PREFIX, refs[index], CLOSE);
    }
    assert refs[..|refs|] == refs;
  }

  lemma Steps(head: string, done: string, sep: string, open: string, ref: string, close: string)
    ensures head + done + sep + open + ref + close == head + (done + sep + (open + ref + close))
  {
  }

  // ---------- reading what was put together ----------

  lemma IndexSkip(s: string, p: string, k: nat)
    requires k <= |s| && forall j :: 0 <= j < k ==> !OccursAt(s, p, j)
    ensures IndexFrom(s, p, 0) == IndexFrom(s, p, k)
  {
  }

  lemma FirstIs(s: string, p: string, from: nat, i: nat)
    requires from <= i && OccursAt(s, p, i) && forall j :: from <= j < i ==> !OccursAt(s, p, j)
    ensures IndexFrom(s, p, from) == Some(i)
  {
    IndexFromIs(s, p, from, i);
  }

  lemma NoneIs(s: string, p: string, from: nat, k: nat)
    requires from <= k <= |s|
    requires (forall j :: from <= j < k ==> !OccursAt(s, p, j)) && (forall j :: k <= j ==> !OccursAt(s, p, j))
    ensures IndexFrom(s, p, from).None?
  {
  }

  lemma FromLead(t: string, k: nat)
    requires k <= |t| && IndexFrom(t, PREFIX, 0) == IndexFrom(t, PREFIX, k)
    ensures ScanFrom(t, 0) == ScanFrom(t, k).(cleaned := t[..k] + ScanFrom(t, k).cleaned)
  {
    hide ScanFrom, IndexFrom, OccursAt, Strip, Continue;
    assert t[0..] == t[..k] + t[k..];
    ScanFromStep(t, 0);
    ScanFromStep(t, k);
    if i: nat :| IndexFrom(t, PREFIX, k) == Some(i) {
      if e: nat :| IndexFrom(t, CLOSE, i + 7) == Some(e) {
        LeadSlices(t, k, i, e);
        ContinueLead(t[..k], t[k..e + 1], t[k..i], Strip(t[i + 7..e]), ScanFrom(t, e + 1));
      }
    }
  }

  /** Text before which no marker starts is kept as it is. */
  lemma ScanLead(lead: string, s: string)
    requires forall j :: 0 <= j < |lead| ==> !OccursAt(lead + s, PREFIX, j)
    ensures Scan(lead + s) == Scan(s).(cleaned := lead + Scan(s).cleaned)
  {
    hide IndexFrom, OccursAt, Strip, Scan, ScanFrom;
    var t := lead + s;
    var k := |lead|;
    assert t[0..] == t && t[k..] == s && t[..k] == lead;
    ScanShift(t, 0);
    ScanShift(t, k);
    IndexSkip(t, PREFIX, k);
    FromLead(t, k);
  }

  lemma LeadSlices(t: string, k: nat, i: nat, e: nat)
    requires k <= i <= e < |t|
    ensures t[0..e + 1] == t[..k] + t[k..e + 1] && t[0..i] == t[..k] + t[k..i] && t[0..] == t[..k] + t[k..]
  {
  }

  lemma ContinueLead(lead: string, skipped: string, open: string, candidate: string, later: Scanned)
    ensures var c := Continue(skipped, open, candidate, later);
            Continue(lead + skipped, lead + open, candidate, later) == c.(cleaned := lead + c.cleaned)
  {
  }

  /** A line break cannot be inside a marker's opening. */
  lemma NoStraddle(a: string, b: string, j: nat)
    requires b == "" || b[0] == '\n'
    requires j < |a|
    ensures OccursAt(a + b, PREFIX, j) ==> j + 7 <= |a|
  {
    if j + 7 > |a| && b != "" && j + 7 <= |a + b| {
      assert (a + b)[|a|] == '\n';
      assert (a + b)[j..j + 7][|a| - j] == '\n';
    }
  }

  lemma PrefixInFront(a: string, b: string)
    requires b == "" || b[0] == '\n'
    ensures IndexOf(a, PREFIX).None? ==> forall j :: 0 <= j < |a| ==> !OccursAt(a + b, PREFIX, j)
    ensures IndexOf(a, PREFIX).Some? ==> IndexOf(a + b, PREFIX) == IndexOf(a, PREFIX)
  {
    hide IndexFrom, OccursAt;
    forall j | 0 <= j < |a| ensures OccursAt(a + b, PREFIX, j) == OccursAt(a, PREFIX, j) {
      NoStraddle(a, b, j);
      Within(a, b, j);
    }
    match IndexOf(a, PREFIX)
    case None =>
    case Some(i) => FirstIs(a + b, PREFIX, 0, i);
  }

  lemma Within(a: string, b: string, j: nat)
    requires j < |a| && (OccursAt(a + b, PREFIX, j) ==> j + 7 <= |a|)
    ensures OccursAt(a + b, PREFIX, j) == OccursAt(a, PREFIX, j)
  {
    if j + 7 <= |a| { OccursInPrefix(a, b, PREFIX, j); }
  }

  lemma CloseInFront(a: string, b: string, from: nat)
    requires from <= |a|
    ensures IndexFrom(a, CLOSE, from).Some? ==> IndexFrom(a + b, CLOSE, from) == IndexFrom(a, CLOSE, from)
    ensures IndexFrom(a, CLOSE, from).None? ==> forall j :: from <= j < |a| ==> !OccursAt(a + b, CLOSE, j)
  {
    hide IndexFrom, OccursAt;
    forall j | 0 <= j < |a| ensures OccursAt(a + b, CLOSE, j) == OccursAt(a, CLOSE, j) {
      OccursInPrefix(a, b, CLOSE, j);
    }
    match IndexFrom(a, CLOSE, from)
    case None =>
    case Some(e) => FirstIs(a + b, CLOSE, from, e);
  }

  /** Where a text does not end inside a marker, what follows a line break is read on its own. */
  lemma {:induction false} ScanThen(a: string, b: string)
    requires !Scan(a).dangling && (b == "" || b[0] == '\n')
    ensures Scan(a + b) == Scanned(Scan(a).cleaned + Scan(b).cleaned, Scan(a).refs + Scan(b).refs, Scan(b).dangling)
    decreases |a|
  {
    hide IndexFrom, OccursAt, Strip;
    PrefixInFront(a, b);
    match IndexOf(a, PREFIX)
    case None =>
      hide Scan;
      ScanLead(a, b);
      ScanPlain(a);
      assert [] + Scan(b).refs == Scan(b).refs;
    case Some(i) =>
      CloseInFront(a, b, i + 7);
      var e := IndexFrom(a, CLOSE, i + 7).value;
      ScanThen(a[e + 1..], b);
      AppendSlices(a, b, i, e);
      ContinueThen(a[..e + 1], a[..i], Strip(a[i + 7..e]), Scan(a[e + 1..]), Scan(b));
  }

  lemma ScanPlain(a: string)
    requires IndexOf(a, PREFIX).None?
    ensures Scan(a) == Scanned(a, [], false)
  {
  }

  lemma AppendSlices(a: string, b: string, i: nat, e: nat)
    requires i + 7 <= e < |a|
    ensures (a + b)[e + 1..] == a[e + 1..] + b && (a + b)[..e + 1] == a[..e + 1]
    ensures (a + b)[..i] == a[..i] && (a + b)[i + 7..e] == a[i + 7..e]
  {
  }

  lemma ContinueThen(skipped: string, open: string, candidate: string, later: Scanned, after: Scanned)
    ensures var c := Continue(skipped, open, candidate, later);
            Continue(skipped, open, candidate,
                     Scanned(later.cleaned + after.cleaned, later.refs + after.refs, after.dangling))
            == Scanned(c.cleaned + after.cleaned, c.refs + after.refs, after.dangling)
  {
  }

  /** A reference that a marker can carry. */
  predicate IsRef(ref: string) {
    ref != "" && Trimmed(ref, RustSpace) && ']' !in ref
  }

  lemma StripRef(ref: string)
    requires Trimmed(ref, RustSpace)
    ensures Strip(ref) == ref
  {
  }

  lemma NoClose(s: string, front: string, back: string)
    requires s == front + CLOSE + back && ']' !in front
    ensures OccursAt(s, CLOSE, |front|)
    ensures forall j :: 0 <= j < |front| ==> !OccursAt(s, CLOSE, j)
  {
    forall j | 0 <= j < |front| ensures !OccursAt(s, CLOSE, j) {
      assert s[j] == front[j] && s[j..j + 1] == [s[j]];
    }
    assert s[|front|..|front| + 1] == CLOSE;
  }

  lemma MarkerParts(ref: string, rest: string)
    requires ']' !in ref
    ensures var s := Marker(ref) + rest; var e := 7 + |ref|;
            e < |s| && s[7..e] == ref && s[e + 1..] == rest && OccursAt(s, PREFIX, 0) && OccursAt(s, CLOSE, e)
    ensures forall j :: 7 <= j < 7 + |ref| ==> !OccursAt(Marker(ref) + rest, CLOSE, j)
  {
    hide OccursAt;
    var s := Marker(ref) + rest;
    assert s[0..7] == PREFIX;
    assert OccursAt(s, PREFIX, 0) by { StandsAt(s, PREFIX, 0); }
    assert s == (PREFIX + ref) + CLOSE + rest;
    assert ']' !in PREFIX + ref;
    NoClose(s, PREFIX + ref, rest);
  }

  lemma StandsAt(s: string, p: string, i: nat)
    requires i + |p| <= |s| && s[i..i + |p|] == p
    ensures OccursAt(s, p, i)
  {
  }

  /** A composed marker is read as its reference, and reading goes on behind it. */
  lemma ScanMarker(ref: string, rest: string)
    requires IsRef(ref)
    ensures Scan(Marker(ref) + rest)
            == Scanned(Scan(rest).cleaned, [ref] + Scan(rest).refs, Scan(rest).dangling)
  {
    hide IndexFrom, Strip, Trimmed, OccursAt, Marker;
    var s := Marker(ref) + rest;
    var e := 7 + |ref|;
    MarkerParts(ref, rest);
    FirstIs(s, PREFIX, 0, 0);
    FirstIs(s, CLOSE, 7, e);
    assert s[..0] == "";
    StripRef(ref);
    assert "" + Scan(rest).cleaned == Scan(rest).cleaned;
  }

  lemma NewlineLead(s: string)
    ensures Scan("\n" + s) == Scan(s).(cleaned := "\n" + Scan(s).cleaned)
  {
    var t := "\n" + s;
    assert t[0] == '\n';
    assert !OccursAt(t, PREFIX, 0) by {
      assert |t| >= 7 ==> t[0..7][0] == '\n';
    }
    ScanLead("\n", s);
  }

  /** Composed markers are read back as the references, with only blanks around them. */
  lemma {:induction false} ScanMarkers(refs: seq<string>)
    requires forall r <- refs :: IsRef(r)
    ensures Scan(Markers(refs)).refs == refs && !Scan(Markers(refs)).dangling && Blank(Scan(Markers(refs)).cleaned)
  {
    hide Scan, IsRef, Marker;
    if refs == [] {
      ScanPlain("");
    } else {
      var n := |refs| - 1;
      var last := Marker(refs[n]);
      assert last + "" == last && refs[n] in refs;
      ScanMarker(refs[n], "");
      ScanPlain("");
      if n > 0 {
        var front := Markers(refs[..n]);
        ScanMarkers(refs[..n]);
        NewlineLead(last);
        ScanThen(front, "\n" + last);
        Assoc(front, "\n", last);
        assert refs == refs[..n] + [refs[n]];
      }
    }
  }

  lemma {:induction false} NoRefsNoChange(s: string)
    ensures Scan(s).refs == [] ==> Scan(s).cleaned == s
    decreases |s|
  {
    hide IndexFrom, OccursAt, Strip;
    match IndexOf(s, PREFIX)
    case None =>
    case Some(i) =>
      match IndexFrom(s, CLOSE, i + 7)
      case None =>
      case Some(e) =>
        NoRefsNoChange(s[e + 1..]);
        SplitAt(s, e + 1);
  }

  lemma StripNoClose(s: string)
    requires ']' !in s
    ensures ']' !in Strip(s) && Trimmed(Strip(s), RustSpace)
  {
  }

  /** Whatever the text, the references read out of it are ones a marker can carry. */
  lemma {:induction false} ScanGivesRefs(s: string)
    ensures forall r <- Scan(s).refs :: IsRef(r)
    decreases |s|
  {
    hide IndexFrom, Strip, Trimmed, OccursAt;
    match IndexOf(s, PREFIX)
    case None =>
    case Some(i) =>
      match IndexFrom(s, CLOSE, i + 7)
      case None =>
      case Some(e) =>
        ScanGivesRefs(s[e + 1..]);
        BeforeClose(s, i + 7, e);
        StripNoClose(s[i + 7..e]);
  }

  lemma BeforeClose(s: string, from: nat, e: nat)
    requires from <= e < |s| && forall j :: from <= j < e ==> !OccursAt(s, CLOSE, j)
    ensures ']' !in s[from..e]
  {
    forall j | from <= j < e ensures s[j] != ']' {
      assert !OccursAt(s, CLOSE, j);
      assert s[j..j + 1] == [s[j]];
    }
  }

  // ---------- a text that ends inside a marker ----------

  lemma NoCloseInGap(a: string, j: nat)
    requires |a| <= j
    ensures !OccursAt(a + GAP, CLOSE, j)
  {
    if j < |a + GAP| {
      assert (a + GAP)[j..j + 1] == [(a + GAP)[j]] == ['\n'];
    }
  }

  /** Blank lines after it change nothing. */
  lemma {:induction false} GapAfter(a: string)
    ensures Scan(a + GAP) == Scan(a).(cleaned := Scan(a).cleaned + GAP)
    decreases |a|
  {
    hide IndexFrom, OccursAt, Strip, Scan;
    if Scan(a).dangling {
      GapDangling(a);
    } else {
      PlainGap();
      ScanThen(a, GAP);
      assert Scan(a).refs + [] == Scan(a).refs;
    }
  }

  lemma {:induction false} GapDangling(a: string)
    requires Scan(a).dangling
    ensures Scan(a + GAP) == Scan(a).(cleaned := Scan(a).cleaned + GAP)
    decreases |a|
  {
    hide IndexFrom, OccursAt, Strip;
    PrefixInFront(a, GAP);
    var i := IndexOf(a, PREFIX).value;
    CloseInFront(a, GAP, i + 7);
    match IndexFrom(a, CLOSE, i + 7)
    case None =>
      forall j | |a| <= j ensures !OccursAt(a + GAP, CLOSE, j) { NoCloseInGap(a, j); }
      NoneIs(a + GAP, CLOSE, i + 7, |a|);
    case Some(e) =>
      GapDangling(a[e + 1..]);
      AppendSlices(a, GAP, i, e);
      ContinueGap(a[..e + 1], a[..i], Strip(a[i + 7..e]), Scan(a[e + 1..]));
  }

  lemma ContinueGap(skipped: string, open: string, candidate: string, later: Scanned)
    ensures var c := Continue(skipped, open, candidate, later);
            Continue(skipped, open, candidate, later.(cleaned := later.cleaned + GAP)) == c.(cleaned := c.cleaned + GAP)
  {
  }

  lemma PlainGap()
    ensures Scan(GAP) == Scanned(GAP, [], false)
  {
  }

  lemma {:induction false} TrimStartKeeps(y: string, z: string)
    requires z != "" && !RustSpace(z[0])
    ensures IsSuffix(z, TrimStart(y + z, RustSpace))
  {
    hide RustSpace;
    if y == "" {
      assert y + z == z;
    } else {
      assert (y + z)[1..] == y[1..] + z;
      TrimStartKeeps(y[1..], z);
      assert (y + z)[|y|..] == z;
    }
  }

  /** The text between an unclosed marker and the end of the next reference is longer than that
      reference. */
  lemma LongCandidate(y: string, ref: string)
    requires ref != "" && Trimmed(ref, RustSpace)
    ensures |Strip(y + (PREFIX + ref))| > |ref|
  {
    hide TrimStart, TrimEnd;
    var z := PREFIX + ref;
    var t := TrimStart(y + z, RustSpace);
    assert z[0] == '[' && z[|z| - 1] == ref[|ref| - 1];
    TrimStartKeeps(y, z);
    assert t[|t| - |z|..][|z| - 1] == t[|t| - 1];
    assert t == t + "";
    TrimEndDrops(t, "", RustSpace);
  }

  /** Followed by a composed marker, it swallows that marker's reference into a longer one. */
  lemma {:induction false} SwallowsFirst(a: string, ref: string, rest: string) returns (odd: string)
    requires Scan(a).dangling && IsRef(ref)
    ensures Scan(a + (GAP + (Marker(ref) + rest))).refs == Scan(a).refs + ([odd] + Scan(rest).refs)
    ensures |odd| > |ref|
    decreases |a|
  {
    hide IndexFrom, OccursAt, Strip, IsRef;
    var b := GAP + (Marker(ref) + rest);
    PrefixInFront(a, b);
    var i := IndexOf(a, PREFIX).value;
    CloseInFront(a, b, i + 7);
    match IndexFrom(a, CLOSE, i + 7)
    case None => odd := SwallowsHere(a, i, ref, rest);
    case Some(e) =>
      odd := SwallowsFirst(a[e + 1..], ref, rest);
      AppendSlices(a, b, i, e);
      ContinueRefs(a[..e + 1], a[..i], Strip(a[i + 7..e]), Scan(a[e + 1..]), Scan(a[e + 1..] + b),
                   [odd] + Scan(rest).refs);
  }

  lemma ContinueRefs(skipped: string, open: string, candidate: string, later: Scanned, other: Scanned,
                     more: seq<string>)
    requires other.refs == later.refs + more
    ensures Continue(skipped, open, candidate, other).refs == Continue(skipped, open, candidate, later).refs + more
  {
    Assoc([candidate], later.refs, more);
  }

  lemma SwallowsHere(a: string, i: nat, ref: string, rest: string) returns (odd: string)
    requires IndexOf(a, PREFIX) == Some(i) && IndexFrom(a, CLOSE, i + 7).None? && IsRef(ref)
    requires IndexOf(a + (GAP + (Marker(ref) + rest)), PREFIX) == Some(i)
    ensures Scan(a + (GAP + (Marker(ref) + rest))).refs == Scan(a).refs + ([odd] + Scan(rest).refs)
    ensures |odd| > |ref|
  {
    hide IndexFrom, OccursAt, Strip;
    var s := a + (GAP + (Marker(ref) + rest));
    var y := a[i + 7..] + GAP;
    odd := Strip(y + (PREFIX + ref));
    LongCandidate(y, ref);
    var e := |a| + 2 + 7 + |ref|;
    FirstCloseAfter(a, i, ref, rest);
    assert s[i + 7..e] == y + (PREFIX + ref);
    assert s[e + 1..] == rest;
    assert [] + ([odd] + Scan(rest).refs) == [odd] + Scan(rest).refs;
  }

  lemma FirstCloseAfter(a: string, i: nat, ref: string, rest: string)
    requires i + 7 <= |a| && IndexFrom(a, CLOSE, i + 7).None? && IsRef(ref)
    ensures IndexFrom(a + (GAP + (Marker(ref) + rest)), CLOSE, i + 7) == Some(|a| + 9 + |ref|)
  {
    hide IndexFrom, OccursAt, IsRef;
    var s := a + (GAP + (Marker(ref) + rest));
    var e := |a| + 9 + |ref|;
    CloseInFront(a, GAP + (Marker(ref) + rest), i + 7);
    CloseOfMarker(a, ref, rest);
    FirstIs(s, CLOSE, i + 7, e);
  }

  lemma CloseOfMarker(a: string, ref: string, rest: string)
    requires IsRef(ref)
    ensures var s := a + (GAP + (Marker(ref) + rest)); var e := |a| + 9 + |ref|;
            OccursAt(s, CLOSE, e) && forall j :: |a| <= j < e ==> !OccursAt(s, CLOSE, j)
  {
    var s := a + (GAP + (Marker(ref) + rest));
    var mid := GAP + PREFIX + ref;
    var e := |a| + |mid|;
    assert s == a + (mid + CLOSE + rest);
    assert s[e..e + 1] == CLOSE;
    forall j | |a| <= j < e ensures !OccursAt(s, CLOSE, j) {
      assert s[j..j + 1] == [s[j]] && s[j] == mid[j - |a|];
      assert mid[j - |a|] in mid;
    }
  }

  lemma {:induction false} MarkersCons(refs: seq<string>) returns (rest: string)
    requires refs != [] && forall r <- refs :: IsRef(r)
    ensures Markers(refs) == Marker(refs[0]) + rest
    ensures Scan(rest).refs == refs[1..] && !Scan(rest).dangling
  {
    hide Scan, IsRef, Marker;
    ScanPlain("");
    var n := |refs| - 1;
    if n == 0 {
      rest := "";
      assert Marker(refs[0]) + "" == Marker(refs[0]);
    } else {
      var front := MarkersCons(refs[..n]);
      var last := Marker(refs[n]);
      rest := front + ("\n" + last);
      assert last + "" == last && refs[n] in refs;
      ScanMarker(refs[n], "");
      NewlineLead(last);
      ScanThen(front, "\n" + last);
      Assoc(Markers(refs[..n]), "\n", last);
      Assoc(Marker(refs[0]), front, "\n" + last);
      assert refs[1..] == refs[..n][1..] + [refs[n]];
    }
  }

  // ---------- round trips ----------

  function Parsed(content: string): (string, seq<string>) {
    (Strip(Scan(content).cleaned), Scan(content).refs)
  }

  /** What reading a composed message finds: the references of the text, then those composed in,
      the first of which is lost in a longer one when the text ends inside a marker. */
  lemma ReadComposed(text: string, refs: seq<string>) returns (odd: string)
    requires forall r <- refs :: IsRef(r)
    ensures var t := Strip(text); var c := Scan(Compose(text, refs));
            if refs != [] && Scan(t).dangling
            then c.refs == Scan(t).refs + ([odd] + refs[1..]) && |odd| > |refs[0]|
            else c.refs == Scan(t).refs + refs
    ensures var t := Strip(text);
            !Scan(t).dangling || refs == [] ==>
              exists blank :: Blank(blank) && Scan(Compose(text, refs)).cleaned == Scan(t).cleaned + blank
  {
    hide Scan, Strip, IsRef;
    odd := "";
    var t := Strip(text);
    var m := Markers(refs);
    ScanMarkers(refs);
    ScanPlain("");
    if t == "" {
      assert [] + refs == refs;
      assert "" + Scan(m).cleaned == Scan(m).cleaned;
    } else if refs == [] {
      GapAfter(t);
      assert t + GAP + "" == t + GAP;
      assert Scan(t).refs + refs == Scan(t).refs;
      assert Blank(GAP);
    } else if Scan(t).dangling {
      var rest := MarkersCons(refs);
      odd := SwallowsFirst(t, refs[0], rest) by { assert refs[0] in refs; }
      Assoc(t, GAP, m);
    } else {
      Assoc(t, GAP, m);
      GapLead(m);
      ScanThen(t, GAP + m);
      assert Blank(GAP + Scan(m).cleaned);
    }
  }

  lemma GapLead(m: string)
    ensures Scan(GAP + m) == Scan(m).(cleaned := GAP + Scan(m).cleaned)
  {
    hide Scan;
    NewlineLead(m);
    NewlineLead("\n" + m);
    TwoLines(m);
    TwoLines(Scan(m).cleaned);
  }

  lemma TwoLines(m: string)
    ensures GAP + m == "\n" + ("\n" + m)
  {
  }

  predicate AllRefs(refs: seq<string>) {
    forall r <- refs :: IsRef(r)
  }

  /** The texts that composing and parsing return. */
  predicate Composable(text: string, refs: seq<string>) {
    Trimmed(text, RustSpace) && AllRefs(refs) && Scan(text).refs == [] && (refs == [] || !Scan(text).dangling)
  }

  /** Composing a message and parsing it gives the text and the references back exactly when the
      text is trimmed, each reference is one a marker can carry, the text holds no reference of
      its own, and, if there is anything to compose in, does not end inside a marker. */
  lemma RoundTrip(text: string, refs: seq<string>)
    ensures Parsed(Compose(text, refs)) == (text, refs) <==> Composable(text, refs)
  {
    hide Parsed, Compose, Composable;
    if Composable(text, refs) { RoundTripBack(text, refs); }
    if Parsed(Compose(text, refs)) == (text, refs) { RoundTripOnly(text, refs); }
  }

  lemma RoundTripBack(text: string, refs: seq<string>)
    requires Composable(text, refs)
    ensures Parsed(Compose(text, refs)) == (text, refs)
  {
    hide Scan, IsRef, Trimmed, Strip, Compose;
    StripRef(text);
    var odd := ReadComposed(text, refs);
    NoRefsNoChange(text);
    var c := Scan(Compose(text, refs));
    var blank :| Blank(blank) && c.cleaned == text + blank;
    StripBlank(text, blank);
    assert [] + refs == refs;
  }

  lemma StripBlank(text: string, blank: string)
    requires Trimmed(text, RustSpace) && Blank(blank)
    ensures Strip(text + blank) == text
  {
    hide Trim;
    assert text + blank == "" + text + blank;
    TrimIs(text + blank, "", text, blank, RustSpace);
  }

  lemma RoundTripOnly(text: string, refs: seq<string>)
    requires Parsed(Compose(text, refs)) == (text, refs)
    ensures Composable(text, refs)
  {
    hide Scan, IsRef, Trimmed, Strip, Compose;
    var c := Compose(text, refs);
    ScanGivesRefs(c);
    StripIsTrimmed(Scan(c).cleaned);
    StripRef(text);
    var odd := ReadComposed(text, refs);
    Lengths(Scan(text).refs, refs, odd);
  }

  lemma StripIsTrimmed(s: string)
    ensures Trimmed(Strip(s), RustSpace)
  {
  }

  lemma Lengths(own: seq<string>, refs: seq<string>, odd: string)
    ensures own + refs == refs ==> own == []
    ensures refs != [] && own + ([odd] + refs[1..]) == refs ==> odd == refs[0]
  {
  }
}
