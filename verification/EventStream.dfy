/** The agent's event stream: the server prints one frame for each event, the browser reads
    the text in arbitrary chunks and parses it as it arrives. The format is a subset of
    server-sent events, section 9.2 of the WHATWG HTML Living Standard. JSON is a pair of
    parameters, an encoder and a decoder. */
module EventStream {
  import opened Wrappers
  import opened Text

  /** `kind` is the type field; `body` stands for all the other fields. */
  datatype Event = Event(kind: string, body: string)

  // ---------- the printer ----------

  function Frame(enc: Event -> string, e: Event): string {
    "data: " + enc(e) + "\n\n"
  }

  function Print(enc: Event -> string, events: seq<Event>): string {
    if events == [] then "" else Frame(enc, events[0]) + Print(enc, events[1..])
  }

  /** What the JSON encoder guarantees for an object, and the decoder for its output. */
  predicate Encodes(enc: Event -> string, dec: string -> Option<Event>, e: Event) {
    var j := enc(e);
    && |j| >= 2 && j[0] == '{' && j[|j| - 1] == '}' && '\n' !in j
    && dec(j) == Some(e)
  }

  ghost predicate EncodesAll(enc: Event -> string, dec: string -> Option<Event>, events: seq<Event>) {
    forall e :: e in events ==> Encodes(enc, dec, e)
  }

  // ---------- splitting ----------

  predicate BreakAt(s: string, k: nat) {
    k + 1 < |s| && s[k] == '\n' && s[k + 1] == '\n'
  }

  /** The position of the first blank line's two newlines, or the length if there is none. */
  function FirstBreak(s: string): (i: nat)
    ensures i <= |s|
    ensures i < |s| ==> BreakAt(s, i)
    ensures forall k :: 0 <= k < i ==> !BreakAt(s, k)
  {
    if |s| < 2 then |s|
    else if BreakAt(s, 0) then 0
    else
      var i := FirstBreak(s[1..]);
      assert forall k :: 1 <= k < |s| ==> BreakAt(s, k) == BreakAt(s[1..], k - 1);
      i + 1
  }

  /** `split('\n\n')`: parts are cut from the left. */
  function Split(s: string): (parts: seq<string>)
    ensures |parts| >= 1
    decreases |s|
  {
    var i := FirstBreak(s);
    if i == |s| then [s] else [s[..i]] + Split(s[i + 2..])
  }

  function Front(parts: seq<string>): seq<string>
    requires |parts| >= 1
  {
    parts[..|parts| - 1]
  }

  function Last(parts: seq<string>): string
    requires |parts| >= 1
  {
    parts[|parts| - 1]
  }

  function Complete(s: string): seq<string> {
    Front(Split(s))
  }

  function Pending(s: string): string {
    Last(Split(s))
  }

  lemma BreakIsFirst(s: string, i: nat)
    requires BreakAt(s, i) && forall k :: 0 <= k < i ==> !BreakAt(s, k)
    ensures FirstBreak(s) == i
  {
  }

  lemma BreakStays(x: string, y: string)
    requires FirstBreak(x) < |x|
    ensures FirstBreak(x + y) == FirstBreak(x)
  {
    var i := FirstBreak(x);
    assert BreakAt(x + y, i);
    forall k | 0 <= k < i ensures !BreakAt(x + y, k) {
      assert !BreakAt(x, k);
    }
    BreakIsFirst(x + y, i);
  }

  lemma FrontOfCons(first: string, parts: seq<string>)
    requires |parts| >= 1
    ensures Front([first] + parts) == [first] + Front(parts) && Last([first] + parts) == Last(parts)
  {
  }

  lemma SplitAtBreak(s: string)
    requires FirstBreak(s) < |s|
    ensures Split(s) == [s[..FirstBreak(s)]] + Split(s[FirstBreak(s) + 2..])
  {
  }

  lemma CutFirst(s: string)
    requires FirstBreak(s) < |s|
    ensures var i := FirstBreak(s);
            && Complete(s) == [s[..i]] + Complete(s[i + 2..])
            && Pending(s) == Pending(s[i + 2..])
  {
    var i := FirstBreak(s);
    SplitAtBreak(s);
    FrontOfCons(s[..i], Split(s[i + 2..]));
  }

  lemma CutFirstOfConcat(x: string, y: string)
    requires FirstBreak(x) < |x|
    ensures var i := FirstBreak(x); Split(x + y) == [x[..i]] + Split(x[i + 2..] + y)
  {
    var i := FirstBreak(x);
    BreakStays(x, y);
    assert (x + y)[..i] == x[..i] && (x + y)[i + 2..] == x[i + 2..] + y;
  }

  lemma Associate(a: seq<string>, b: seq<string>, c: seq<string>)
    ensures a + (b + c) == (a + b) + c
  {
  }

  /** Splitting may be done piecewise: what was already cut stays cut, and only the last,
      unfinished part has to be kept for the text that follows. */
  lemma {:induction false} SplitConcat(x: string, y: string)
    ensures Split(x + y) == Complete(x) + Split(Pending(x) + y)
    decreases |x|
  {
    var i := FirstBreak(x);
    if i == |x| {
      assert Complete(x) == [] && Pending(x) == x;
    } else {
      var rest := x[i + 2..];
      CutFirst(x);
      CutFirstOfConcat(x, y);
      SplitConcat(rest, y);
      Associate([x[..i]], Complete(rest), Split(Pending(rest) + y));
    }
  }

  lemma CompleteConcat(x: string, y: string)
    ensures Complete(x + y) == Complete(x) + Complete(Pending(x) + y)
    ensures Pending(x + y) == Pending(Pending(x) + y)
  {
    SplitConcat(x, y);
  }

  function Joined(parts: seq<string>): string
    requires |parts| >= 1
  {
    if |parts| == 1 then parts[0] else parts[0] + "\n\n" + Joined(parts[1..])
  }

  lemma JoinedCons(first: string, rest: seq<string>)
    requires |rest| >= 1
    ensures Joined([first] + rest) == first + "\n\n" + Joined(rest)
  {
    assert ([first] + rest)[1..] == rest;
  }

  lemma TextAtBreak(s: string, i: nat)
    requires BreakAt(s, i)
    ensures s == s[..i] + "\n\n" + s[i + 2..]
  {
    assert s[i..i + 2] == "\n\n";
    assert s == s[..i] + s[i..i + 2] + s[i + 2..];
  }

  /** Splitting loses nothing but the separators, */
  lemma {:induction false} SplitJoins(s: string)
    ensures Joined(Split(s)) == s
    decreases |s|
  {
    var i := FirstBreak(s);
    if i < |s| {
      SplitJoins(s[i + 2..]);
      JoinedCons(s[..i], Split(s[i + 2..]));
      TextAtBreak(s, i);
    }
  }

  lemma NoneBeforeFirst(s: string)
    ensures var first := s[..FirstBreak(s)]; FirstBreak(first) == |first|
  {
    var i := FirstBreak(s);
    var j := FirstBreak(s[..i]);
    assert BreakAt(s[..i], j) ==> BreakAt(s, j);
  }

  /** and leaves none in a part. */
  lemma {:induction false} PartsAreWhole(s: string, k: nat)
    requires k < |Split(s)|
    ensures FirstBreak(Split(s)[k]) == |Split(s)[k]|
    decreases |s|
  {
    var i := FirstBreak(s);
    if i < |s| {
      if k == 0 {
        NoneBeforeFirst(s);
      } else {
        PartsAreWhole(s[i + 2..], k - 1);
      }
    }
  }

  // ---------- reading one part ----------

  /** `split('\n')`. */
  function Lines(s: string): (lines: seq<string>)
    ensures |lines| >= 1
  {
    if s == "" then [""]
    else
      var rest := Lines(s[1..]);
      if s[0] == '\n' then [""] + rest else [[s[0]] + rest[0]] + rest[1..]
  }

  function FirstData(lines: seq<string>): (r: Option<string>)
    ensures r.Some? ==> "data:" <= r.value
  {
    if lines == [] then None
    else
      var line := Trim(IsScriptSpace, lines[0]);
      if "data:" <= line then Some(line) else FirstData(lines[1..])
  }

  function Payload(line: string): string
    requires "data:" <= line
  {
    TrimLeft(IsScriptSpace, line[5..])
  }

  /** At most one event per part: the first data line, unless it is empty, the end marker or
      not JSON. */
  function ReadPart(dec: string -> Option<Event>, part: string): seq<Event> {
    match FirstData(Lines(part))
    case None => []
    case Some(line) =>
      var raw := Payload(line);
      if raw == "" || raw == "[DONE]" then []
      else match dec(raw) case None => [] case Some(e) => [e]
  }

  function JoinLines(lines: seq<string>): string
    requires |lines| >= 1
  {
    if |lines| == 1 then lines[0] else lines[0] + "\n" + JoinLines(lines[1..])
  }

  /** The lines of a part are what stands between its newlines. */
  lemma {:induction false} LinesJoin(s: string)
    ensures JoinLines(Lines(s)) == s && forall k :: 0 <= k < |Lines(s)| ==> '\n' !in Lines(s)[k]
  {
    if s != "" {
      var rest := Lines(s[1..]);
      LinesJoin(s[1..]);
      assert s == [s[0]] + s[1..];
      if s[0] == '\n' {
        assert ([""] + rest)[1..] == rest;
      } else {
        assert ([[s[0]] + rest[0]] + rest[1..])[1..] == rest[1..];
      }
    }
  }

  predicate IsData(line: string) {
    "data:" <= Trim(IsScriptSpace, line)
  }

  lemma {:induction false} FirstDataIs(lines: seq<string>, k: nat)
    requires k <= |lines| && (k < |lines| ==> IsData(lines[k])) && forall j :: 0 <= j < k ==> !IsData(lines[j])
    ensures FirstData(lines) == if k < |lines| then Some(Trim(IsScriptSpace, lines[k])) else None
  {
    if k > 0 { FirstDataIs(lines[1..], k - 1); }
  }

  /** What a part is read as: `k` is its first data line. What follows the marker, trimmed, is an
      event unless it is empty, the end marker or not JSON; the other lines do not matter. */
  lemma ReadPartIs(dec: string -> Option<Event>, part: string, k: nat)
    requires k <= |Lines(part)| && (k < |Lines(part)| ==> IsData(Lines(part)[k]))
    requires forall j :: 0 <= j < k ==> !IsData(Lines(part)[j])
    ensures k == |Lines(part)| ==> ReadPart(dec, part) == []
    ensures k < |Lines(part)| ==>
              var raw := TrimLeft(IsScriptSpace, Trim(IsScriptSpace, Lines(part)[k])[5..]);
              ReadPart(dec, part) == if raw != "" && raw != "[DONE]" && dec(raw).Some? then [dec(raw).value] else []
  {
    FirstDataIs(Lines(part), k);
  }

  function Reader(dec: string -> Option<Event>): string -> seq<Event> {
    part => ReadPart(dec, part)
  }

  function ReadParts(read: string -> seq<Event>, parts: seq<string>): seq<Event> {
    if parts == [] then [] else ReadParts(read, parts[..|parts| - 1]) + read(parts[|parts| - 1])
  }

  /** The events a reader of the whole text gets: its terminated parts, read in order. */
  function Received(dec: string -> Option<Event>, text: string): seq<Event> {
    ReadParts(Reader(dec), Complete(text))
  }

  predicate HasDone(events: seq<Event>) {
    exists i :: 0 <= i < |events| && events[i].kind == "done"
  }

  lemma {:induction false} ReadPartsConcat(read: string -> seq<Event>, a: seq<string>, b: seq<string>)
    ensures ReadParts(read, a + b) == ReadParts(read, a) + ReadParts(read, b)
  {
    if b == [] {
      assert a + b == a;
    } else {
      ReadPartsConcat(read, a, b[..|b| - 1]);
      assert (a + b)[..|a + b| - 1] == a + b[..|b| - 1];
    }
  }

  lemma {:induction false} OneLine(s: string)
    requires '\n' !in s
    ensures Lines(s) == [s]
  {
    if s != "" {
      assert '\n' !in s[1..];
      OneLine(s[1..]);
      assert s == [s[0]] + s[1..];
    }
  }

  // ---------- the incremental reader ----------

  function Concat(chunks: seq<string>): string {
    if chunks == [] then "" else Concat(chunks[..|chunks| - 1]) + chunks[|chunks| - 1]
  }

  lemma NextChunk(dec: string -> Option<Event>, chunks: seq<string>, n: nat)
    requires n < |chunks|
    ensures var seen, buffer := Concat(chunks[..n]), Pending(Concat(chunks[..n])) + chunks[n];
            && Pending(Concat(chunks[..n + 1])) == Pending(buffer)
            && Received(dec, Concat(chunks[..n + 1])) == Received(dec, seen) + ReadParts(Reader(dec), Complete(buffer))
  {
    var seen := Concat(chunks[..n]);
    assert chunks[..n + 1][..n] == chunks[..n];
    CompleteConcat(seen, chunks[n]);
    ReadPartsConcat(Reader(dec), Complete(seen), Complete(Pending(seen) + chunks[n]));
  }

  lemma OneMore(events: seq<Event>, e: Event)
    ensures HasDone(events + [e]) == (HasDone(events) || e.kind == "done")
  {
    var more := events + [e];
    assert more[|events|] == e;
    if HasDone(events) {
      var i :| 0 <= i < |events| && events[i].kind == "done";
      assert more[i] == events[i];
    }
  }

  lemma ReadNext(dec: string -> Option<Event>, parts: seq<string>, m: nat)
    requires m < |parts|
    ensures ReadParts(Reader(dec), parts[..m + 1]) == ReadParts(Reader(dec), parts[..m]) + ReadPart(dec, parts[m])
  {
    assert parts[..m + 1][..m] == parts[..m];
  }

  /** The inner loop, over the parts a chunk completed. */
  method Deliver(dec: string -> Option<Event>, parts: seq<string>, before: seq<Event>, doneBefore: bool)
    returns (delivered: seq<Event>, completed: bool)
    requires doneBefore == HasDone(before)
    ensures delivered == before + ReadParts(Reader(dec), parts)
    ensures completed == HasDone(delivered)
  {
    delivered, completed := before, doneBefore;
    for m := 0 to |parts|
      invariant delivered == before + ReadParts(Reader(dec), parts[..m])
      invariant completed == HasDone(delivered)
    {
      ReadNext(dec, parts, m);
      var line := FirstData(Lines(parts[m]));
      if line == None { continue; }
      var raw := Payload(line.value);
      if raw == "" || raw == "[DONE]" { continue; }
      var ev := dec(raw);
      if ev == None { continue; }
      OneMore(delivered, ev.value);
      delivered := delivered + [ev.value];
      if ev.value.kind == "done" { completed := true; }
    }
    assert parts[..|parts|] == parts;
  }

  /** The reading loop. However the text is cut into chunks, the events delivered are those
      of the whole text, and the stream ends normally just when one of them is 'done'. */
  method AgentChatStream(dec: string -> Option<Event>, chunks: seq<string>) returns (delivered: seq<Event>, ok: bool)
    ensures delivered == Received(dec, Concat(chunks))
    ensures ok == HasDone(delivered)
    ensures ok <==> exists e :: e in delivered && e.kind == "done"
  {
    var buffer, completed := "", false;
    delivered := [];
    for n := 0 to |chunks|
      invariant buffer == Pending(Concat(chunks[..n]))
      invariant delivered == Received(dec, Concat(chunks[..n]))
      invariant completed == HasDone(delivered)
    {
      NextChunk(dec, chunks, n);
      var parts := Split(buffer + chunks[n]);
      buffer := Last(parts);
      delivered, completed := Deliver(dec, Front(parts), delivered, completed);
    }
    assert chunks[..|chunks|] == chunks;
    assert forall i :: 0 <= i < |delivered| ==> delivered[i] in delivered;
    ok := completed;
  }

  // ---------- the round trip ----------

  lemma FrameSplits(enc: Event -> string, dec: string -> Option<Event>, e: Event, y: string)
    requires Encodes(enc, dec, e)
    ensures Split(Frame(enc, e) + y) == ["data: " + enc(e)] + Split(y)
  {
    var line := "data: " + enc(e);
    var s := Frame(enc, e) + y;
    assert s == line + "\n\n" + y;
    assert '\n' !in "data: ";
    forall k | 0 <= k < |line| ensures s[k] != '\n' {
      assert s[k] == line[k] && line[k] in line;
    }
    BreakIsFirst(s, |line|);
    assert s[..|line|] == line && s[|line| + 2..] == y;
  }

  lemma DataLine(line: string)
    requires |line| >= 7 && line[..6] == "data: " && line[6] == '{' && line[|line| - 1] == '}'
    ensures FirstData([line]) == Some(line) && "data:" <= line && Payload(line) == line[6..]
  {
    assert line[0] == line[..6][0] == 'd' && line[5] == line[..6][5] == ' ';
    assert Trim(IsScriptSpace, line) == line;
    assert line[..5] == line[..6][..5] == "data:";
    assert line[5..][1..] == line[6..];
  }

  lemma FrameReads(enc: Event -> string, dec: string -> Option<Event>, e: Event)
    requires Encodes(enc, dec, e)
    ensures ReadPart(dec, "data: " + enc(e)) == [e]
  {
    var line := "data: " + enc(e);
    assert line[6..] == enc(e) && line[..6] == "data: ";
    assert '\n' !in "data: ";
    OneLine(line);
    DataLine(line);
  }

  lemma FrameFirst(enc: Event -> string, dec: string -> Option<Event>, e: Event, more: string)
    requires Encodes(enc, dec, e)
    ensures Received(dec, Frame(enc, e) + more) == [e] + Received(dec, more)
  {
    var line := "data: " + enc(e);
    FrameSplits(enc, dec, e, more);
    FrameReads(enc, dec, e);
    assert Complete(Frame(enc, e) + more) == [line] + Complete(more);
    ReadPartsConcat(Reader(dec), [line], Complete(more));
    assert [line][..0] == [];
    assert ReadParts(Reader(dec), [line]) == [e];
  }

  lemma NoWholeFrame(enc: Event -> string, dec: string -> Option<Event>, e: Event, n: nat)
    requires Encodes(enc, dec, e) && n < |Frame(enc, e)|
    ensures Received(dec, Frame(enc, e)[..n]) == []
  {
    var t, line := Frame(enc, e)[..n], "data: " + enc(e);
    assert '\n' !in "data: ";
    forall i | 0 <= i < |line| ensures Frame(enc, e)[i] != '\n' {
      assert Frame(enc, e)[i] == line[i] && line[i] in line;
    }
    assert FirstBreak(t) == |t|;
    assert Split(t) == [t];
  }

  /** The length of the text up to and including the k-th frame. */
  function Printed(enc: Event -> string, events: seq<Event>, k: nat): nat
    requires k <= |events|
  {
    |Print(enc, events[..k])|
  }

  lemma PrintedNext(enc: Event -> string, events: seq<Event>, k: nat)
    requires 0 < k <= |events|
    ensures Printed(enc, events, k) == |Frame(enc, events[0])| + Printed(enc, events[1..], k - 1)
  {
    assert events[..k][1..] == events[1..][..k - 1];
  }

  lemma TakeInto(x: string, y: string, n: nat)
    requires |x| <= n <= |x| + |y|
    ensures (x + y)[..n] == x + y[..n - |x|]
  {
  }

  /** The reader as a function of the text. */
  function Receiver(dec: string -> Option<Event>): string -> seq<Event> {
    text => Received(dec, text)
  }

  /** What the reader does with one frame, whole or cut short. */
  ghost predicate ReadsFrame(enc: Event -> string, reader: string -> seq<Event>, e: Event) {
    && (forall more :: reader(Frame(enc, e) + more) == [e] + reader(more))
    && (forall n :: 0 <= n < |Frame(enc, e)| ==> reader(Frame(enc, e)[..n]) == [])
  }

  lemma ReceiverReadsFrame(enc: Event -> string, dec: string -> Option<Event>, e: Event)
    requires Encodes(enc, dec, e)
    ensures ReadsFrame(enc, Receiver(dec), e)
  {
    forall more ensures Receiver(dec)(Frame(enc, e) + more) == [e] + Receiver(dec)(more) {
      FrameFirst(enc, dec, e, more);
    }
    forall n | 0 <= n < |Frame(enc, e)| ensures Receiver(dec)(Frame(enc, e)[..n]) == [] {
      NoWholeFrame(enc, dec, e, n);
    }
  }

  /** Any reader that reads frames so reads a text that is cut off so. */
  lemma {:induction false} TruncatedBy(enc: Event -> string, reader: string -> seq<Event>, events: seq<Event>, n: nat, k: nat)
    requires reader("") == [] && (forall e :: e in events ==> ReadsFrame(enc, reader, e)) && k <= |events|
    requires Printed(enc, events, k) <= n <= |Print(enc, events)|
    requires k < |events| ==> n < Printed(enc, events, k + 1)
    ensures reader(Print(enc, events)[..n]) == events[..k]
  {
    var text := Print(enc, events);
    if events == [] {
      assert text[..n] == "";
    } else {
      var e, rest := events[0], events[1..];
      assert ReadsFrame(enc, reader, e);
      if k < |events| { PrintedNext(enc, events, k + 1); }
      if k == 0 {
        assert Printed(enc, rest, 0) == 0;
        assert text[..n] == Frame(enc, e)[..n];
      } else {
        PrintedNext(enc, events, k);
        var m := n - |Frame(enc, e)|;
        TruncatedBy(enc, reader, rest, m, k - 1);
        TakeInto(Frame(enc, e), Print(enc, rest), n);
        assert events[..k] == [e] + rest[..k - 1];
      }
    }
  }

  /** Cut off anywhere, the text still yields the events whose frames are whole, in order,
      and nothing else. */
  lemma {:induction false} TruncatedText(enc: Event -> string, dec: string -> Option<Event>, events: seq<Event>, n: nat, k: nat)
    requires EncodesAll(enc, dec, events) && k <= |events|
    requires Printed(enc, events, k) <= n <= |Print(enc, events)|
    requires k < |events| ==> n < Printed(enc, events, k + 1)
    ensures Received(dec, Print(enc, events)[..n]) == events[..k]
  {
    forall e | e in events ensures ReadsFrame(enc, Receiver(dec), e) { ReceiverReadsFrame(enc, dec, e); }
    assert Receiver(dec)("") == [] by { assert Split("") == [""]; }
    TruncatedBy(enc, Receiver(dec), events, n, k);
  }

  /** Every list of events, printed and cut into any chunks, is delivered exactly, in order. */
  lemma RoundTrip(enc: Event -> string, dec: string -> Option<Event>, events: seq<Event>)
    requires EncodesAll(enc, dec, events)
    ensures Received(dec, Print(enc, events)) == events
  {
    var text := Print(enc, events);
    assert events[..|events|] == events && text[..|text|] == text;
    TruncatedText(enc, dec, events, |text|, |events|);
  }

  lemma AppendAssociates(x: string, y: string, z: string)
    ensures x + (y + z) == (x + y) + z
  {
  }

  lemma PrintCons(enc: Event -> string, e: Event, rest: seq<Event>)
    ensures Print(enc, [e] + rest) == Frame(enc, e) + Print(enc, rest)
  {
    assert ([e] + rest)[1..] == rest;
  }

  lemma {:induction false} PrintConcat(enc: Event -> string, a: seq<Event>, b: seq<Event>)
    ensures Print(enc, a + b) == Print(enc, a) + Print(enc, b)
  {
    if a == [] {
      assert a + b == b;
    } else {
      PrintConcat(enc, a[1..], b);
      PrintCons(enc, a[0], a[1..] + b);
      PrintCons(enc, a[0], a[1..]);
      assert a + b == [a[0]] + (a[1..] + b) && a == [a[0]] + a[1..];
      AppendAssociates(Frame(enc, a[0]), Print(enc, a[1..]), Print(enc, b));
    }
  }

  /** The server writes one frame per event as the events come. */
  method PrintEvents(enc: Event -> string, events: seq<Event>) returns (text: string)
    ensures text == Print(enc, events)
  {
    text := "";
    for i := 0 to |events|
      invariant text == Print(enc, events[..i])
    {
      assert events[..i + 1] == events[..i] + [events[i]];
      PrintConcat(enc, events[..i], [events[i]]);
      assert Print(enc, [events[i]]) == Frame(enc, events[i]) + "";
      text := text + "data: " + enc(events[i]) + "\n\n";
    }
    assert events[..|events|] == events;
  }

  /** A browser that got the first part of the text, or all of it, in any chunks: it has the
      first k events, and reports success just when one of those is 'done'. */
  method ReadPrinted(enc: Event -> string, dec: string -> Option<Event>, events: seq<Event>, chunks: seq<string>, ghost k: nat)
    returns (delivered: seq<Event>, ok: bool)
    requires EncodesAll(enc, dec, events) && k <= |events|
    requires Concat(chunks) <= Print(enc, events) && Printed(enc, events, k) <= |Concat(chunks)|
    requires k < |events| ==> |Concat(chunks)| < Printed(enc, events, k + 1)
    ensures delivered == events[..k]
    ensures Concat(chunks) == Print(enc, events) ==> delivered == events
    ensures ok <==> HasDone(delivered)
  {
    ghost var text := Concat(chunks);
    assert Received(dec, text) == events[..k] by {
      TruncatedText(enc, dec, events, |text|, k);
      assert Print(enc, events)[..|text|] == text;
    }
    assert text == Print(enc, events) ==> Received(dec, text) == events by { RoundTrip(enc, dec, events); }
    delivered, ok := AgentChatStream(dec, chunks);
  }
}
