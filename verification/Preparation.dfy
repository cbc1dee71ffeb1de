/** Preparing a conversation for a provider: every image reference of a user message is loaded and
    composed back into the message as a data URI. */
module Preparation {
  import opened Text
  import opened Multimodal

  datatype Message = Message(role: string, content: string)

  const ALLOWED: set<string> := {"image/png", "image/jpeg", "image/webp", "image/gif", "image/bmp"}

  predicate Base64(c: char) {
    'A' <= c <= 'Z' || 'a' <= c <= 'z' || '0' <= c <= '9' || c == '+' || c == '/' || c == '='
  }

  /** The characters of an encoded payload. */
  lemma PayloadChars(c: char)
    ensures Base64(c)
            <==> c in "abcdefghijklmnopqrstuvwxyz" || c in "ABCDEFGHIJKLMNOPQRSTUVWXYZ" || c in "0123456789+/="
  {
  }

  datatype Picture = Picture(mime: string, payload: string)

  predicate Loadable(p: Picture) {
    p.mime in ALLOWED && forall c <- p.payload :: Base64(c)
  }

  /** What loading a reference gives: an allowed type and an encoded payload. */
  type Image = p: Picture | Loadable(p) witness Picture("image/png", "")

  /** The files and servers behind the references: what reference number `k` of message number `i`
      loads as, `None` where it does not load. */
  type Source = (nat, nat, string) -> Option<Image>

  function DataUri(p: Image): string {
    "data:" + p.mime + ";base64," + p.payload
  }

  /** A data URI is always something a marker can carry. */
  lemma UriIsRef(p: Image)
    ensures IsRef(DataUri(p))
  {
    hide RustSpace;
    AllowedHasNoClose(p.mime);
    var head := "data:" + p.mime + ";base64,";
    var uri := head + p.payload;
    assert uri[0] == 'd' && uri[|uri| - 1] == if p.payload == "" then ',' else p.payload[|p.payload| - 1];
    NotBlank('d');
    NotBlank(uri[|uri| - 1]);
    assert ']' !in head;
  }

  lemma AllowedHasNoClose(mime: string)
    requires mime in ALLOWED
    ensures ']' !in mime
  {
  }

  lemma NotBlank(c: char)
    requires Base64(c) || c == ','
    ensures !RustSpace(c) && c != ']'
  {
  }

  datatype Outcome =
    | TooManyImages(maxImages: nat, found: nat)
    | NotLoaded(input: string)
    | Prepared(messages: seq<Message>, containsImages: bool)

  function Refs(m: Message): seq<string> {
    Scan(m.content).refs
  }

  function Images(m: Message): nat {
    if m.role == "user" then |Refs(m)| else 0
  }

  function CountImages(ms: seq<Message>): nat {
    if ms == [] then 0 else CountImages(ms[..|ms| - 1]) + Images(ms[|ms| - 1])
  }

  function Limit(maxImages: nat): nat {
    if maxImages < 1 then 1 else if maxImages > 16 then 16 else maxImages
  }

  predicate Loads(source: Source, i: nat, refs: seq<string>) {
    forall k :: 0 <= k < |refs| ==> LoadsAt(source, i, k, refs)
  }

  predicate LoadsAt(source: Source, i: nat, k: nat, refs: seq<string>)
    requires k < |refs|
  {
    source(i, k, refs[k]).Some?
  }

  function Uri(source: Source, i: nat, k: nat, ref: string): string {
    match source(i, k, ref)
    case Some(p) => DataUri(p)
    case None => ""
  }

  function Uris(source: Source, i: nat, refs: seq<string>): (r: seq<string>)
    ensures |r| == |refs|
  {
    seq(|refs|, k requires 0 <= k < |refs| => Uri(source, i, k, refs[k]))
  }

  predicate HasImages(m: Message) {
    Images(m) > 0
  }

  function Cleaned(m: Message): string {
    Strip(Scan(m.content).cleaned)
  }

  /** Message number `i` as it is sent. */
  function Sent(source: Source, i: nat, m: Message): Message {
    if HasImages(m) then Message(m.role, Compose(Cleaned(m), Uris(source, i, Refs(m)))) else m
  }

  function SentAll(source: Source, ms: seq<Message>): (r: seq<Message>)
    ensures |r| == |ms|
  {
    seq(|ms|, i requires 0 <= i < |ms| => Sent(source, i, ms[i]))
  }

  predicate Ready(source: Source, i: nat, m: Message) {
    HasImages(m) ==> Loads(source, i, Refs(m))
  }

  predicate AllReady(source: Source, ms: seq<Message>) {
    forall i :: 0 <= i < |ms| ==> Ready(source, i, ms[i])
  }

  /** Reference `k` of message `i` is the first one that does not load. */
  predicate FirstFailure(source: Source, ms: seq<Message>, i: nat, k: nat) {
    i < |ms| && HasImages(ms[i]) && k < |Refs(ms[i])| && !LoadsAt(source, i, k, Refs(ms[i]))
    && AllReady(source, ms[..i]) && Loads(source, i, Refs(ms[i])[..k])
  }

  method LoadRefs(source: Source, i: nat, refs: seq<string>) returns (uris: seq<string>, failed: Option<nat>)
    ensures failed.None? ==> Loads(source, i, refs) && uris == Uris(source, i, refs)
    ensures failed.Some? ==> failed.value < |refs| && !LoadsAt(source, i, failed.value, refs)
                             && Loads(source, i, refs[..failed.value])
  {
    uris := [];
    for k := 0 to |refs|
      invariant |uris| == k
      invariant forall j :: 0 <= j < k ==> LoadsAt(source, i, j, refs) && uris[j] == Uri(source, i, j, refs[j])
    {
      match source(i, k, refs[k])
      case None => return uris, Some(k);
      case Some(p) => uris := uris + [DataUri(p)];
    }
    failed := None;
  }

  /** A conversation is returned unchanged, returned with every user reference replaced, or refused
      for its number of images or for the first reference that does not load. */
  method PrepareMessages(ms: seq<Message>, source: Source, maxImages: nat) returns (r: Outcome)
    ensures r.TooManyImages? <==> CountImages(ms) > Limit(maxImages)
    ensures 1 <= Limit(maxImages) <= 16 && (1 <= maxImages <= 16 ==> Limit(maxImages) == maxImages)
            && (maxImages < 1 ==> Limit(maxImages) == 1) && (maxImages > 16 ==> Limit(maxImages) == 16)
    ensures r.Prepared? ==>
              |r.messages| == |ms|
              && forall i :: 0 <= i < |ms| && (ms[i].role != "user" || Refs(ms[i]) == []) ==> r.messages[i] == ms[i]
    ensures r.TooManyImages? ==> r == TooManyImages(Limit(maxImages), CountImages(ms))
    ensures r.Prepared? ==> r == Prepared(SentAll(source, ms), CountImages(ms) > 0)
    ensures r.Prepared? ==> AllReady(source, ms)
    ensures r.NotLoaded? ==> exists i: nat, k: nat :: FirstFailure(source, ms, i, k) && r.input == Refs(ms[i])[k]
  {
    hide Scan, Strip, Compose, Uris, Loads, LoadsAt;
    var found := CountImages(ms);
    if found > Limit(maxImages) {
      return TooManyImages(Limit(maxImages), found);
    }
    if found == 0 {
      NoImages(source, ms);
      return Prepared(ms, false);
    }
    var out: seq<Message> := [];
    for i := 0 to |ms|
      invariant |out| == i && AllReady(source, ms[..i])
      invariant forall j :: 0 <= j < i ==> out[j] == Sent(source, j, ms[j])
    {
      var m := ms[i];
      assert ms[..i + 1] == ms[..i] + [m];
      if m.role != "user" {
        out := out + [m];
      } else {
        var text, refs := ParseImageMarkers(m.content);
        if refs == [] {
          out := out + [m];
        } else {
          var uris, failed := LoadRefs(source, i, refs);
          if failed.Some? {
            assert FirstFailure(source, ms, i, failed.value);
            return NotLoaded(refs[failed.value]);
          }
          var content := ComposeMultimodalMessage(text, uris);
          out := out + [Message(m.role, content)];
        }
      }
    }
    assert ms[..|ms|] == ms;
    assert out == SentAll(source, ms);
    r := Prepared(out, true);
  }

  lemma {:induction false} NoImages(source: Source, ms: seq<Message>)
    requires CountImages(ms) == 0
    ensures SentAll(source, ms) == ms && AllReady(source, ms)
  {
    hide Scan, Compose, Uris, Loads;
    if ms != [] {
      var n := |ms| - 1;
      NoImages(source, ms[..n]);
      forall i | 0 <= i < |ms| ensures !HasImages(ms[i]) {
        if i < n { NotAny(ms[..n], i); assert ms[..n][i] == ms[i]; }
      }
    }
  }

  lemma {:induction false} NotAny(ms: seq<Message>, i: nat)
    requires CountImages(ms) == 0 && i < |ms|
    ensures !HasImages(ms[i])
  {
    hide Refs;
    if i < |ms| - 1 { NotAny(ms[..|ms| - 1], i); }
  }

  // ---------- what a prepared conversation holds ----------

  lemma UrisAreRefs(source: Source, i: nat, refs: seq<string>)
    requires Loads(source, i, refs)
    ensures AllRefs(Uris(source, i, refs))
  {
    hide IsRef, DataUri;
    var uris := Uris(source, i, refs);
    forall k | 0 <= k < |refs| ensures IsRef(uris[k]) {
      assert LoadsAt(source, i, k, refs);
      UriIsRef(source(i, k, refs[k]).value);
    }
  }

  /** The references that a message's own text still holds once its references are taken out. */
  function LeftOver(m: Message): nat {
    if HasImages(m) then |Scan(Cleaned(m)).refs| else 0
  }

  function LeftOverAll(ms: seq<Message>): nat {
    if ms == [] then 0 else LeftOverAll(ms[..|ms| - 1]) + LeftOver(ms[|ms| - 1])
  }

  lemma SentImages(source: Source, i: nat, m: Message)
    requires Ready(source, i, m)
    ensures Images(Sent(source, i, m)) == Images(m) + LeftOver(m)
  {
    hide Scan, Strip, Compose, Uris, Loads, AllRefs, IsRef;
    if HasImages(m) {
      var uris := Uris(source, i, Refs(m));
      UrisAreRefs(source, i, Refs(m));
      StripTwice(Scan(m.content).cleaned);
      ReadCount(Cleaned(m), uris);
    }
  }

  lemma StripTwice(s: string)
    ensures Strip(Strip(s)) == Strip(s)
  {
  }

  lemma ReadCount(text: string, refs: seq<string>)
    requires AllRefs(refs)
    ensures |Scan(Compose(text, refs)).refs| == |Scan(Strip(text)).refs| + |refs|
  {
    hide Scan, Strip, Compose, IsRef;
    var odd := ReadComposed(text, refs);
  }

  /** Preparing never loses an image; it adds as many as the cleaned texts still hold. */
  lemma {:induction false} ImagesKept(source: Source, ms: seq<Message>)
    requires AllReady(source, ms)
    ensures CountImages(SentAll(source, ms)) == CountImages(ms) + LeftOverAll(ms)
  {
    hide Scan, Sent, Images, LeftOver, Ready;
    if ms != [] {
      var n := |ms| - 1;
      forall i | 0 <= i < n ensures Ready(source, i, ms[..n][i]) { assert Ready(source, i, ms[i]); }
      ImagesKept(source, ms[..n]);
      SentImages(source, n, ms[n]);
      assert SentAll(source, ms)[..n] == SentAll(source, ms[..n]);
    }
  }

  /** A message is read back as its cleaned text and the data URIs exactly when the cleaned text
      holds no reference and does not end inside a marker. */
  lemma MessageKept(source: Source, i: nat, m: Message)
    requires HasImages(m) && Loads(source, i, Refs(m))
    ensures Parsed(Sent(source, i, m).content) == (Cleaned(m), Uris(source, i, Refs(m)))
            <==> Scan(Cleaned(m)).refs == [] && !Scan(Cleaned(m)).dangling
  {
    hide Scan, Strip, Compose, Uris, Loads, Parsed, AllRefs, IsRef, Trimmed;
    UrisAreRefs(source, i, Refs(m));
    StripIsTrimmed(Scan(m.content).cleaned);
    RoundTrip(Cleaned(m), Uris(source, i, Refs(m)));
  }

  lemma Differs(s: string, j: nat, k: nat)
    requires k < 7 && j + k < |s| && s[j + k] != PREFIX[k]
    ensures !OccursAt(s, PREFIX, j)
  {
    if j + 7 <= |s| { assert s[j..j + 7][k] == s[j + k]; }
  }

  lemma SpliceStart(rest: string)
    requires rest != "" && rest[0] == '['
    ensures Scan("[IM" + rest) == Scan(rest).(cleaned := "[IM" + Scan(rest).cleaned)
  {
    hide Scan;
    var s := "[IM" + rest;
    Differs(s, 0, 3);
    Differs(s, 1, 0);
    Differs(s, 2, 0);
    ScanLead("[IM", rest);
  }

  lemma SpliceEnd(inner: string)
    requires '[' !in inner
    ensures Scan("AGE:" + inner + CLOSE) == Scanned("AGE:" + inner + CLOSE, [], false)
  {
    hide Scan, IndexFrom;
    var s := "AGE:" + inner + CLOSE;
    forall j | 0 <= j < |s| ensures !OccursAt(s, PREFIX, j) {
      assert s[j] in s && '[' !in s;
      Differs(s, j, 0);
    }
    ScanPlain(s);
  }

  /** Taking a marker out can splice another one together: one image goes in, two come out, so a
      conversation that passes the limit can leave above it. */
  lemma Spliced(outer: string, inner: string)
    requires IsRef(outer) && IsRef(inner) && '[' !in inner
    ensures var m := Message("user", "[IM" + (Marker(outer) + ("AGE:" + inner + CLOSE)));
            Images(m) == 1 && LeftOver(m) == 1
  {
    hide Scan, IsRef, IndexFrom, Trim;
    var tail := "AGE:" + inner + CLOSE;
    SpliceStart(Marker(outer) + tail);
    ScanMarker(outer, tail);
    SpliceEnd(inner);
    assert "[IM" + tail == Marker(inner);
    assert Trimmed(Marker(inner), RustSpace);
    StripRef(Marker(inner));
    ScanMarker(inner, "");
    ScanPlain("");
    assert Marker(inner) + "" == Marker(inner);
    assert [outer] + [] == [outer] && [inner] + [] == [inner];
  }
}
