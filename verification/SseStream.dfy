/** The incremental event-stream splitter of the session-manager client.
    Both stream methods run the same buffer loop; it is modelled once. */
module SseStream {
  import opened Text

  const SEPARATOR: string := "\n\n"
  const DATA_PREFIX: string := "data: "

  /** A stream cut at every blank line: the complete records and the text after the last one. */
  datatype Cut = Cut(records: seq<string>, rest: string)

  function CutAll(s: string): Cut
    decreases |s|
  {
    match IndexOf(s, SEPARATOR)
    case None => Cut([], s)
    case Some(i) =>
      var later := CutAll(s[i + 2..]);
      Cut([s[..i]] + later.records, later.rest)
  }

  function Lines(s: string): (lines: seq<string>)
    ensures |lines| > 0
  {
    match IndexOf(s, "\n")
    case None => [s]
    case Some(i) => [s[..i]] + Lines(s[i + 1..])
  }

  /** The decoded payload of a line, if it is a data line holding valid JSON. */
  function LineEvent<J>(line: string, loads: string -> Option<J>): Option<J> {
    if DATA_PREFIX <= line then loads(line[6..]) else None
  }

  function LineEvents<J>(lines: seq<string>, loads: string -> Option<J>): seq<J> {
    if lines == [] then []
    else
      var n := |lines| - 1;
      LineEvents(lines[..n], loads)
      + (match LineEvent(lines[n], loads) case None => [] case Some(e) => [e])
  }

  function RecordEvents<J>(records: seq<string>, loads: string -> Option<J>): seq<J> {
    if records == [] then []
    else
      var n := |records| - 1;
      RecordEvents(records[..n], loads) + LineEvents(Lines(records[n]), loads)
  }

  // ---------- cutting does not depend on how the text arrived ----------

  /** Text that arrives later only continues the unfinished record. */
  lemma {:induction false} CutAppend(s: string, t: string)
    ensures var a := CutAll(s); var b := CutAll(a.rest + t);
            CutAll(s + t) == Cut(a.records + b.records, b.rest)
    decreases |s|
  {
    match IndexOf(s, SEPARATOR)
    case None =>
    case Some(i) =>
      assert OccursAt(s + t, SEPARATOR, i);
      forall j | 0 <= j < i ensures !OccursAt(s + t, SEPARATOR, j) {
        OccursInPrefix(s, t, SEPARATOR, j);
      }
      IndexFromIs(s + t, SEPARATOR, 0, i);
      assert (s + t)[i + 2..] == s[i + 2..] + t;
      assert (s + t)[..i] == s[..i];
      CutAppend(s[i + 2..], t);
      var a := CutAll(s[i + 2..]);
      var b := CutAll(a.rest + t);
      var c := CutAll(s[i + 2..] + t);
      assert CutAll(s) == Cut([s[..i]] + a.records, a.rest);
      assert CutAll(s + t) == Cut([s[..i]] + c.records, c.rest);
      Assoc([s[..i]], a.records, b.records);
  }

  /** The lines of one record, in order: each data line that decodes is one event. */
  method EmitRecord<J>(raw: string, loads: string -> Option<J>) returns (events: seq<J>)
    ensures events == LineEvents(Lines(raw), loads)
  {
    events := [];
    var lines := Lines(raw);
    for i := 0 to |lines|
      invariant events == LineEvents(lines[..i], loads)
    {
      assert lines[..i + 1][..i] == lines[..i];
      match LineEvent(lines[i], loads)
      case Some(e) => events := events + [e];
      case None =>
    }
    assert lines[..|lines|] == lines;
  }

  /** The inner loop: every complete record leaves the buffer. `done` are the records before. */
  method Drain<J>(buffer: string, ghost done: seq<string>, events: seq<J>, loads: string -> Option<J>)
    returns (rest: string, all: seq<J>)
    requires events == RecordEvents(done, loads)
    ensures all == RecordEvents(done + CutAll(buffer).records, loads)
    ensures rest == CutAll(buffer).rest
  {
    rest, all := buffer, events;
    ghost var out := done;
    while IndexOf(rest, SEPARATOR).Some?
      invariant done + CutAll(buffer).records == out + CutAll(rest).records
      invariant CutAll(buffer).rest == CutAll(rest).rest
      invariant all == RecordEvents(out, loads)
      decreases |rest|
    {
      var cut := IndexOf(rest, SEPARATOR).value;
      var raw := rest[..cut];
      ghost var later := CutAll(rest[cut + 2..]);
      assert CutAll(rest) == Cut([raw] + later.records, later.rest);
      Assoc(out, [raw], later.records);
      rest := rest[cut + 2..];
      var es := EmitRecord(raw, loads);
      assert (out + [raw])[..|out|] == out;
      all := all + es;
      out := out + [raw];
    }
    assert out + [] == out;
  }

  /** The client loop. However the stream is cut into chunks, the events and the leftover
      buffer are those of the whole text read at once. */
  method Consume<J>(chunks: seq<string>, loads: string -> Option<J>) returns (events: seq<J>, buffer: string)
    ensures events == RecordEvents(CutAll(Concat(chunks)).records, loads)
    ensures buffer == CutAll(Concat(chunks)).rest
  {
    events, buffer := [], "";
    for k := 0 to |chunks|
      invariant events == RecordEvents(CutAll(Concat(chunks[..k])).records, loads)
      invariant buffer == CutAll(Concat(chunks[..k])).rest
    {
      assert chunks[..k + 1] == chunks[..k] + [chunks[k]];
      ConcatSnoc(chunks[..k], chunks[k]);
      CutAppend(Concat(chunks[..k]), chunks[k]);
      buffer := buffer + chunks[k];
      buffer, events := Drain(buffer, CutAll(Concat(chunks[..k])).records, events, loads);
    }
    assert chunks[..|chunks|] == chunks;
  }

  // ---------- what the cut means ----------

  /** Records put back with their separators, followed by the unfinished text. */
  function Rebuild(records: seq<string>, rest: string): string {
    if records == [] then rest else records[0] + SEPARATOR + Rebuild(records[1..], rest)
  }

  /** No blank line starts inside `r` when a blank line follows it. */
  predicate IsRecord(r: string) {
    !Contains(r, SEPARATOR) && (r != "" ==> r[|r| - 1] != '\n')
  }

  predicate IsCutOf(c: Cut, s: string) {
    && Rebuild(c.records, c.rest) == s
    && (forall r <- c.records :: IsRecord(r))
    && !Contains(c.rest, SEPARATOR)
  }

  /** A cut-off piece before the first blank line is a record. */
  lemma FirstPieceIsRecord(s: string, i: nat)
    requires i + 2 <= |s|
    requires forall j :: 0 <= j < i ==> !OccursAt(s, SEPARATOR, j)
    requires s[i] == '\n'
    ensures IsRecord(s[..i])
  {
    var r := s[..i];
    assert s == r + s[i..];
    forall j | 0 <= j <= |r| ensures !OccursAt(r, SEPARATOR, j) {
      if j + 2 <= |r| {
        OccursInPrefix(r, s[i..], SEPARATOR, j);
      }
    }
    if i > 0 {
      assert s[i - 1..i + 1] == [s[i - 1], s[i]];
      assert !OccursAt(s, SEPARATOR, i - 1);
    }
  }

  /** No blank line starts before the one that ends a record. */
  lemma RecordEndsFirst(r: string, tail: string)
    requires IsRecord(r)
    ensures IndexOf(r + SEPARATOR + tail, SEPARATOR) == Some(|r|)
  {
    var i := |r|;
    var s := r + SEPARATOR + tail;
    assert s[i..i + 2] == SEPARATOR;
    forall j | 0 <= j < i ensures !OccursAt(s, SEPARATOR, j) {
      if j + 2 <= i {
        assert s == r + (SEPARATOR + tail);
        OccursInPrefix(r, SEPARATOR + tail, SEPARATOR, j);
        assert !OccursAt(r, SEPARATOR, j);
      } else {
        assert s[j..j + 2][0] == s[j] == r[i - 1];
      }
    }
    IndexFromIs(s, SEPARATOR, 0, i);
  }

  lemma {:induction false} CutIsExact(s: string)
    ensures IsCutOf(CutAll(s), s)
    decreases |s|
  {
    match IndexOf(s, SEPARATOR)
    case None =>
    case Some(i) =>
      var later := CutAll(s[i + 2..]);
      CutIsExact(s[i + 2..]);
      assert s[i] == s[i..i + 2][0];
      FirstPieceIsRecord(s, i);
      assert CutAll(s) == Cut([s[..i]] + later.records, later.rest);
      assert CutAll(s).records[1..] == later.records;
      assert s == s[..i] + s[i..i + 2] + s[i + 2..];
  }

  /** There is only one way to cut a text into records and an unfinished rest, and it is the
      one the loop finds. */
  lemma {:induction false} CutIsUnique(c: Cut, s: string)
    ensures IsCutOf(c, s) <==> c == CutAll(s)
    decreases |c.records|
  {
    CutIsExact(s);
    if IsCutOf(c, s) {
      if c.records == [] {
        assert IndexOf(s, SEPARATOR).None?;
      } else {
        var r := c.records[0];
        var tail := Rebuild(c.records[1..], c.rest);
        RecordEndsFirst(r, tail);
        assert s[|r| + 2..] == tail && s[..|r|] == r;
        CutIsUnique(Cut(c.records[1..], c.rest), tail);
        assert c.records == [r] + c.records[1..];
      }
    }
  }

  // ---------- reading what was written ----------

  /** A line of a record as a writer means it: a payload, or a line that carries none, such as the
      heartbeat comment of the sidecar. */
  datatype Field = Data(payload: string) | Other(text: string)

  function Written(f: Field): string {
    match f
    case Data(payload) => "data: " + payload
    case Other(text) => text
  }

  const HEARTBEAT: Field := Other(": heartbeat")

  predicate OneLine(s: string) {
    forall i :: 0 <= i < |s| ==> s[i] != '\n'
  }

  predicate Writable(f: Field) {
    match f
    case Data(payload) => OneLine(payload)
    case Other(text) => OneLine(text) && text != "" && !("data: " <= text)
  }

  /** A record is one or more lines. */
  predicate WritableRecord(fields: seq<Field>) {
    fields != [] && forall f <- fields :: Writable(f)
  }

  function RecordText(fields: seq<Field>): string {
    if fields == [] then ""
    else if |fields| == 1 then Written(fields[0]) else Written(fields[0]) + "\n" + RecordText(fields[1..])
  }

  function StreamText(records: seq<seq<Field>>): string {
    if records == [] then "" else RecordText(records[0]) + "\n\n" + StreamText(records[1..])
  }

  function PayloadsOf(fields: seq<Field>): seq<string> {
    if fields == [] then []
    else
      var n := |fields| - 1;
      PayloadsOf(fields[..n]) + (if fields[n].Data? then [fields[n].payload] else [])
  }

  /** The payloads of all records, in the order they were written. */
  function Payloads(records: seq<seq<Field>>): seq<string> {
    if records == [] then []
    else Payloads(records[..|records| - 1]) + PayloadsOf(records[|records| - 1])
  }

  /** What the payloads that decode are decoded to. */
  function Decoded<J>(payloads: seq<string>, loads: string -> Option<J>): seq<J> {
    if payloads == [] then []
    else
      var n := |payloads| - 1;
      Decoded(payloads[..n], loads) + (match loads(payloads[n]) case None => [] case Some(e) => [e])
  }

  lemma {:induction false} DecodedAppend<J>(a: seq<string>, b: seq<string>, loads: string -> Option<J>)
    ensures Decoded(a + b, loads) == Decoded(a, loads) + Decoded(b, loads)
    decreases |b|
  {
    if b == [] {
      assert a + b == a;
    } else {
      var n := |b| - 1;
      assert (a + b)[..|a| + n] == a + b[..n];
      DecodedAppend(a, b[..n], loads);
    }
  }

  /** Where all payloads decode, one event stands for each. */
  lemma {:induction false} DecodedAll<J>(payloads: seq<string>, loads: string -> Option<J>)
    requires forall p <- payloads :: loads(p).Some?
    ensures var r := Decoded(payloads, loads);
            |r| == |payloads| && forall i :: 0 <= i < |r| ==> loads(payloads[i]) == Some(r[i])
  {
    if payloads != [] {
      var n := |payloads| - 1;
      DecodedAll(payloads[..n], loads);
    }
  }

  function Texts(fields: seq<Field>): (r: seq<string>)
    ensures |r| == |fields| && forall i :: 0 <= i < |r| ==> r[i] == Written(fields[i])
  {
    seq(|fields|, i requires 0 <= i < |fields| => Written(fields[i]))
  }

  lemma WrittenIsOneLine(f: Field)
    requires Writable(f)
    ensures OneLine(Written(f)) && Written(f) != ""
  {
  }

  lemma FirstLine(line: string, rest: string)
    requires OneLine(line)
    ensures IndexOf(line, "\n") == None && IndexOf(line + "\n" + rest, "\n") == Some(|line|)
  {
    var s := line + "\n" + rest;
    forall j | 0 <= j < |line| ensures !OccursAt(s, "\n", j) && !OccursAt(line, "\n", j) {
      assert s[j..j + 1][0] == line[j] && line[j..j + 1][0] == line[j];
    }
    assert s[|line|..|line| + 1] == "\n";
    IndexFromIs(s, "\n", 0, |line|);
  }

  lemma {:induction false} LinesOfRecord(fields: seq<Field>)
    requires WritableRecord(fields)
    ensures Lines(RecordText(fields)) == Texts(fields)
  {
    var line := Written(fields[0]);
    WrittenIsOneLine(fields[0]);
    if |fields| == 1 {
      FirstLine(line, "");
    } else {
      var rest := RecordText(fields[1..]);
      FirstLine(line, rest);
      var s := RecordText(fields);
      assert s == line + "\n" + rest && s[..|line|] == line && s[|line| + 1..] == rest;
      LinesOfRecord(fields[1..]);
      assert Texts(fields) == [line] + Texts(fields[1..]);
    }
  }

  /** No line of the text is empty. */
  predicate Solid(s: string) {
    s != "" && s[0] != '\n' && s[|s| - 1] != '\n'
    && forall i :: 0 < i < |s| ==> s[i - 1] != '\n' || s[i] != '\n'
  }

  lemma {:induction false} RecordIsSolid(fields: seq<Field>)
    requires WritableRecord(fields)
    ensures Solid(RecordText(fields))
  {
    var line := Written(fields[0]);
    WrittenIsOneLine(fields[0]);
    if |fields| > 1 {
      RecordIsSolid(fields[1..]);
      var rest := RecordText(fields[1..]);
      var s := RecordText(fields);
      assert s == line + "\n" + rest;
      forall i | 0 < i < |s| ensures s[i - 1] != '\n' || s[i] != '\n' {
        if i > |line| + 1 {
          assert s[i - 1] == rest[i - |line| - 2] && s[i] == rest[i - |line| - 1];
        }
      }
    }
  }

  lemma SolidIsRecord(r: string)
    requires Solid(r)
    ensures IsRecord(r)
  {
    forall i | 0 <= i <= |r| ensures !OccursAt(r, SEPARATOR, i) {
      if i + 2 <= |r| { assert r[i..i + 2] == [r[i], r[i + 1]]; }
    }
  }

  function RecordTexts(records: seq<seq<Field>>): (r: seq<string>)
    ensures |r| == |records| && forall i :: 0 <= i < |r| ==> r[i] == RecordText(records[i])
  {
    seq(|records|, i requires 0 <= i < |records| => RecordText(records[i]))
  }

  lemma {:induction false} StreamRebuilds(records: seq<seq<Field>>, tail: string)
    requires forall r <- records :: WritableRecord(r)
    ensures Rebuild(RecordTexts(records), tail) == StreamText(records) + tail
  {
    if records != [] {
      StreamRebuilds(records[1..], tail);
      assert RecordTexts(records)[1..] == RecordTexts(records[1..]);
    }
  }

  lemma StreamIsCut(records: seq<seq<Field>>, tail: string)
    requires (forall r <- records :: WritableRecord(r)) && !Contains(tail, SEPARATOR)
    ensures CutAll(StreamText(records) + tail) == Cut(RecordTexts(records), tail)
  {
    hide Contains, CutAll, Rebuild, IsRecord;
    forall t | t in RecordTexts(records) ensures IsRecord(t) {
      var i :| 0 <= i < |records| && t == RecordTexts(records)[i];
      RecordIsSolid(records[i]);
      SolidIsRecord(t);
    }
    StreamRebuilds(records, tail);
    CutIsUnique(Cut(RecordTexts(records), tail), StreamText(records) + tail);
  }

  lemma FieldEvent<J>(f: Field, loads: string -> Option<J>)
    requires Writable(f)
    ensures LineEvent(Written(f), loads) == if f.Data? then loads(f.payload) else None
  {
    if f.Data? { assert Written(f)[6..] == f.payload && Written(f)[..6] == DATA_PREFIX; }
  }

  lemma {:induction false} FieldEvents<J>(fields: seq<Field>, loads: string -> Option<J>)
    requires forall f <- fields :: Writable(f)
    ensures LineEvents(Texts(fields), loads) == Decoded(PayloadsOf(fields), loads)
  {
    hide LineEvent, Writable, Written;
    if fields != [] {
      var n := |fields| - 1;
      FieldEvents(fields[..n], loads);
      assert Texts(fields)[..n] == Texts(fields[..n]);
      FieldEvent(fields[n], loads);
      var last := if fields[n].Data? then [fields[n].payload] else [];
      DecodedAppend(PayloadsOf(fields[..n]), last, loads);
      if fields[n].Data? { assert last[..0] == []; }
    }
  }

  lemma {:induction false} StreamEvents<J>(records: seq<seq<Field>>, loads: string -> Option<J>)
    requires forall r <- records :: WritableRecord(r)
    ensures RecordEvents(RecordTexts(records), loads) == Decoded(Payloads(records), loads)
  {
    hide Lines, LineEvents, Texts, RecordText, PayloadsOf;
    if records != [] {
      var n := |records| - 1;
      StreamEvents(records[..n], loads);
      assert RecordTexts(records)[..n] == RecordTexts(records[..n]);
      LinesOfRecord(records[n]);
      FieldEvents(records[n], loads);
      DecodedAppend(Payloads(records[..n]), PayloadsOf(records[n]), loads);
    } else {
      assert RecordTexts(records) == [];
    }
  }

  /** Whatever was written is read back: the records of a writer, cut into chunks at any places, give
      their payloads that decode, in order, and nothing else; a tail that is not complete stays in the
      buffer. */
  method ReadBack<J>(records: seq<seq<Field>>, tail: string, chunks: seq<string>, loads: string -> Option<J>)
    returns (events: seq<J>, buffer: string)
    requires (forall r <- records :: WritableRecord(r)) && !Contains(tail, "\n\n")
    requires Concat(chunks) == StreamText(records) + tail
    ensures events == Decoded(Payloads(records), loads) && buffer == tail
  {
    StreamIsCut(records, tail);
    StreamEvents(records, loads);
    events, buffer := Consume(chunks, loads);
  }

  /** The stream of the sidecar: one record for each event, and heartbeats anywhere between. */
  function SidecarStream(payloads: seq<string>, beats: nat -> nat): seq<seq<Field>> {
    if payloads == [] then Beats(beats(0))
    else
      var n := |payloads| - 1;
      SidecarStream(payloads[..n], beats) + [[Data(payloads[n])]] + Beats(beats(n + 1))
  }

  function Beats(n: nat): (r: seq<seq<Field>>)
    ensures |r| == n && forall b <- r :: b == [HEARTBEAT]
  {
    seq(n, i => [HEARTBEAT])
  }

  lemma {:induction false} BeatsCarryNothing(records: seq<seq<Field>>, n: nat)
    ensures Payloads(records + Beats(n)) == Payloads(records)
  {
    if n == 0 {
      assert records + Beats(0) == records;
    } else {
      assert (records + Beats(n))[..|records| + n - 1] == records + Beats(n - 1);
      BeatsCarryNothing(records, n - 1);
      assert PayloadsOf([HEARTBEAT]) == [];
    }
  }

  lemma {:induction false} SidecarWritable(payloads: seq<string>, beats: nat -> nat)
    requires forall p <- payloads :: OneLine(p)
    ensures forall r <- SidecarStream(payloads, beats) :: WritableRecord(r)
  {
    hide OneLine;
    HeartbeatWritable();
    if payloads != [] {
      var n := |payloads| - 1;
      SidecarWritable(payloads[..n], beats);
      assert OneLine(payloads[n]);
      assert WritableRecord([Data(payloads[n])]);
    }
  }

  lemma HeartbeatWritable()
    ensures WritableRecord([HEARTBEAT])
  {
    var text := ": heartbeat";
    assert HEARTBEAT.text == text && text[0] == ':' && DATA_PREFIX[0] == 'd';
    assert OneLine(text);
  }

  lemma {:induction false} SidecarPayloads(payloads: seq<string>, beats: nat -> nat)
    ensures Payloads(SidecarStream(payloads, beats)) == payloads
  {
    hide PayloadsOf, Beats;
    if payloads == [] {
      BeatsCarryNothing([], beats(0));
      assert [] + Beats(beats(0)) == Beats(beats(0));
    } else {
      var n := |payloads| - 1;
      SidecarPayloads(payloads[..n], beats);
      var front := SidecarStream(payloads[..n], beats);
      var event := [Data(payloads[n])];
      assert (front + [event])[..|front|] == front;
      OnePayload(payloads[n]);
      BeatsCarryNothing(front + [event], beats(n + 1));
    }
  }

  lemma OnePayload(payload: string)
    ensures PayloadsOf([Data(payload)]) == [payload]
  {
  }

  /** With JSON texts of one line each, the client yields exactly the decoded events of the sidecar, in
      order, whatever the heartbeats and the chunks. */
  method ReadSidecar<J>(payloads: seq<string>, beats: nat -> nat, chunks: seq<string>, loads: string -> Option<J>)
    returns (events: seq<J>, buffer: string)
    requires forall p <- payloads :: OneLine(p) && loads(p).Some?
    requires Concat(chunks) == StreamText(SidecarStream(payloads, beats))
    ensures |events| == |payloads| && forall i :: 0 <= i < |events| ==> loads(payloads[i]) == Some(events[i])
    ensures buffer == ""
  {
    SidecarPayloads(payloads, beats);
    SidecarWritable(payloads, beats);
    DecodedAll(payloads, loads);
    var records := SidecarStream(payloads, beats);
    assert StreamText(records) + "" == StreamText(records);
    events, buffer := ReadBack(records, "", chunks, loads);
  }
}
