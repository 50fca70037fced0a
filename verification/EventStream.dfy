/**
  The event stream: the printer (internal/api/rest/events.go) and the incremental reader
  (ui/src/api.ts). Frames end at a blank line; a chunk may end anywhere, even inside it.
 */
module EventStream {

  // ------------------------------------------------------------------------- printer

  /** What the server writes: an event, or the comment that keeps an idle connection open. */
  datatype Emission = Event(kind: string, payload: string) | Keepalive

  function FrameOf(e: Emission): string {
    match e
    case Event(kind, payload) => "event: " + kind + "\ndata: " + payload
    case Keepalive => ": keepalive"
  }

  const BLANK := "\n\n"

  function Printed(es: seq<Emission>): string {
    if es == [] then "" else FrameOf(es[0]) + BLANK + Printed(es[1..])
  }

  predicate OneLine(s: string) { '\n' !in s }

  predicate Printable(e: Emission) { e.Event? ==> OneLine(e.kind) && OneLine(e.payload) }

  predicate AllPrintable(es: seq<Emission>) { forall e | e in es :: Printable(e) }

  // -------------------------------------------------------------- what a text contains

  predicate BlankAt(s: string, i: int) { 0 <= i < |s| - 1 && s[i] == '\n' && s[i + 1] == '\n' }

  /** JavaScript's indexOf("\n\n"). */
  function FirstBlank(s: string): (i: int)
    ensures i >= 0 ==> BlankAt(s, i) && forall j | 0 <= j < i :: !BlankAt(s, j)
    ensures i < 0 ==> i == -1 && forall j :: !BlankAt(s, j)
  {
    if |s| < 2 then -1
    else if s[0] == '\n' && s[1] == '\n' then 0
    else
      var r := FirstBlank(s[1..]);
      assert forall j | 0 < j :: BlankAt(s, j) == BlankAt(s[1..], j - 1);
      if r < 0 then -1 else r + 1
  }

  /** The complete frames of a text, in order. */
  function Frames(s: string): seq<string>
    decreases |s|
  {
    var i := FirstBlank(s);
    if i < 0 then [] else [s[..i]] + Frames(s[i + 2..])
  }

  /** What follows the last complete frame. */
  function Remainder(s: string): string
    decreases |s|
  {
    var i := FirstBlank(s);
    if i < 0 then s else Remainder(s[i + 2..])
  }

  /** JavaScript's split("\n"). */
  function Lines(s: string): (lines: seq<string>)
    ensures lines != []
    decreases |s|
  {
    if OneLine(s) then [s] else
      var i := FirstNewline(s);
      [s[..i]] + Lines(s[i + 1..])
  }

  function FirstNewline(s: string): (i: nat)
    requires !OneLine(s)
    ensures i < |s| && s[i] == '\n' && OneLine(s[..i])
  {
    if s[0] == '\n' then 0 else 1 + FirstNewline(s[1..])
  }

  function FirstColon(s: string): (i: int)
    ensures -1 <= i < |s|
    ensures i >= 0 ==> s[i] == ':' && ':' !in s[..i]
    ensures i < 0 ==> ':' !in s
  {
    if s == "" then -1
    else if s[0] == ':' then 0
    else var r := FirstColon(s[1..]); if r < 0 then -1 else r + 1
  }

  predicate IsComment(line: string) { line != "" && line[0] == ':' }

  function Field(line: string): string {
    var c := FirstColon(line);
    if c < 0 then line else line[..c]
  }

  /** The text after the colon, without the one space that belongs to the framing. */
  function Value(line: string): string {
    var c := FirstColon(line);
    if c < 0 then "" else
      var rest := line[c + 1..];
      if rest != "" && rest[0] == ' ' then rest[1..] else rest
  }

  function EventType(lines: seq<string>): string {
    if lines == [] then "message" else
      var last := lines[|lines| - 1];
      if !IsComment(last) && Field(last) == "event" then Value(last) else EventType(lines[..|lines| - 1])
  }

  function DataLines(lines: seq<string>): seq<string> {
    if lines == [] then [] else
      var rest, last := DataLines(lines[..|lines| - 1]), lines[|lines| - 1];
      if !IsComment(last) && Field(last) == "data" then rest + [Value(last)] else rest
  }

  function Joined(parts: seq<string>): string {
    if parts == [] then "" else if |parts| == 1 then parts[0]
    else Joined(parts[..|parts| - 1]) + "\n" + parts[|parts| - 1]
  }

  /** What one frame dispatches, if anything. */
  function Dispatched(frame: string): seq<(string, string)> {
    var lines := Lines(frame);
    if DataLines(lines) == [] then [] else [(EventType(lines), Joined(DataLines(lines)))]
  }

  function FlatMap<A, B>(f: A -> seq<B>, s: seq<A>): seq<B> {
    if s == [] then [] else f(s[0]) + FlatMap(f, s[1..])
  }

  /** What a reader hears in a text. */
  function Heard(s: string): seq<(string, string)> { FlatMap(Dispatched, Frames(s)) }

  function Concat(chunks: seq<string>): string {
    if chunks == [] then "" else Concat(chunks[..|chunks| - 1]) + chunks[|chunks| - 1]
  }

  // -------------------------------------------------------------------------- reader

  method DispatchFrame(frame: string, heard: seq<(string, string)>) returns (heard': seq<(string, string)>)
    ensures heard' == heard + Dispatched(frame)
  {
    var event, data := "message", [];
    var lines := Lines(frame);
    for i := 0 to |lines|
      invariant event == EventType(lines[..i]) && data == DataLines(lines[..i])
    {
      assert lines[..i + 1][..i] == lines[..i];
      var line := lines[i];
      if line != "" && line[0] == ':' { continue; }
      var field, value := Field(line), Value(line);
      if field == "event" { event := value; } else if field == "data" { data := data + [value]; }
    }
    assert lines[..|lines|] == lines;
    heard' := if |data| > 0 then heard + [(event, Joined(data))] else heard;
  }

  /** A text with a blank line at i: its first frame, and the text after it. */
  lemma {:induction false} FirstFrame(s: string, i: nat)
    requires i == FirstBlank(s)
    ensures Frames(s) == [s[..i]] + Frames(s[i + 2..]) && Remainder(s) == Remainder(s[i + 2..])
  {
  }

  lemma {:induction false} HearsFirst(s: string, i: nat)
    requires i == FirstBlank(s)
    ensures Heard(s) == Dispatched(s[..i]) + Heard(s[i + 2..])
  {
    FirstFrame(s, i);
    FlatMapCons(Dispatched, s[..i], Frames(s[i + 2..]));
  }

  /** The reader's state between chunks: the unfinished tail, and what has been dispatched. */
  class Reader {
    var buffer: string
    var heard: seq<(string, string)>

    constructor ()
      ensures buffer == "" && heard == []
    {
      buffer, heard := "", [];
    }

    /** Consumes the first complete frame. */
    method TakeFrame(boundary: nat)
      requires boundary == FirstBlank(buffer)
      modifies this
      ensures buffer == old(buffer)[boundary + 2..] && heard + Heard(buffer) == old(heard) + Heard(old(buffer))
      ensures Remainder(buffer) == Remainder(old(buffer))
    {
      FirstFrame(buffer, boundary);
      HearsFirst(buffer, boundary);
      var frame := buffer[..boundary];
      buffer := buffer[boundary + 2..];
      heard := DispatchFrame(frame, heard);
    }

    method Feed(chunk: string)
      modifies this
      ensures buffer == Remainder(old(buffer) + chunk)
      ensures heard == old(heard) + Heard(old(buffer) + chunk)
    {
      buffer := buffer + chunk;
      ghost var text := buffer;
      var boundary := FirstBlank(buffer);
      while boundary != -1
        invariant boundary == FirstBlank(buffer)
        invariant Remainder(buffer) == Remainder(text)
        invariant heard + Heard(buffer) == old(heard) + Heard(text)
        decreases |buffer|
      {
        TakeFrame(boundary);
        boundary := FirstBlank(buffer);
      }
    }
  }

  /** The whole stream, chunk by chunk: what is heard depends on the text alone, not on how it was cut. */
  method ReadEventStream(chunks: seq<string>) returns (heard: seq<(string, string)>)
    ensures heard == Heard(Concat(chunks))
  {
    var reader := new Reader();
    for i := 0 to |chunks|
      invariant reader.heard == Heard(Concat(chunks[..i])) && reader.buffer == Remainder(Concat(chunks[..i]))
    {
      assert chunks[..i + 1][..i] == chunks[..i];
      reader.Feed(chunks[i]);
      Resumes(Concat(chunks[..i]), chunks[i]);
    }
    assert chunks[..|chunks|] == chunks;
    return reader.heard;
  }

  // ------------------------------------------------------------- chunk independence

  lemma {:induction false} BlankStays(a: string, b: string)
    requires FirstBlank(a) >= 0
    ensures FirstBlank(a + b) == FirstBlank(a)
  {
    var i, j := FirstBlank(a), FirstBlank(a + b);
    assert BlankAt(a + b, i);
    assert j <= i;
    assert BlankAt(a, j);
  }

  lemma {:induction false} Assoc<T>(a: seq<T>, b: seq<T>, c: seq<T>)
    ensures a + b + c == a + (b + c)
  {
  }

  lemma {:induction false} SplitAppend<T>(a: seq<T>, b: seq<T>, i: nat, j: nat)
    requires i <= j <= |a|
    ensures (a + b)[..i] == a[..i] && (a + b)[j..] == a[j..] + b
  {
  }

  lemma {:induction false} FlatMapConcat<A, B>(f: A -> seq<B>, a: seq<A>, b: seq<A>)
    ensures FlatMap(f, a + b) == FlatMap(f, a) + FlatMap(f, b)
  {
    if a == [] {
      assert a + b == b;
    } else {
      var x, rest := a[0], a[1..];
      FlatMapConcat(f, rest, b);
      FlatMapCons(f, x, rest);
      FlatMapCons(f, x, rest + b);
      assert a == [x] + rest;
      Assoc([x], rest, b);
      Assoc(f(x), FlatMap(f, rest), FlatMap(f, b));
    }
  }

  lemma {:induction false} FlatMapCons<A, B>(f: A -> seq<B>, x: A, s: seq<A>)
    ensures FlatMap(f, [x] + s) == f(x) + FlatMap(f, s)
  {
    assert ([x] + s)[0] == x && ([x] + s)[1..] == s;
  }

  lemma {:induction false} FirstOfBoth(a: string, b: string, i: nat)
    requires i == FirstBlank(a)
    ensures Frames(a + b) == [a[..i]] + Frames(a[i + 2..] + b) && Remainder(a + b) == Remainder(a[i + 2..] + b)
  {
    BlankStays(a, b);
    SplitAppend(a, b, i, i + 2);
    FirstFrame(a + b, i);
  }

  lemma {:induction false} ResumesAfterFirst(a: string, b: string, i: nat)
    requires i == FirstBlank(a)
    requires var rest := a[i + 2..]; Frames(rest + b) == Frames(rest) + Frames(Remainder(rest) + b)
    ensures Frames(a + b) == Frames(a) + Frames(Remainder(a) + b)
  {
    var rest := a[i + 2..];
    FirstFrame(a, i);
    FirstOfBoth(a, b, i);
    Assoc([a[..i]], Frames(rest), Frames(Remainder(rest) + b));
  }

  /** Reading a and then b from the tail a left is reading them at once. */
  lemma {:induction false} FramesResume(a: string, b: string)
    ensures Frames(a + b) == Frames(a) + Frames(Remainder(a) + b)
    ensures Remainder(a + b) == Remainder(Remainder(a) + b)
    decreases |a|
  {
    var i := FirstBlank(a);
    if i >= 0 {
      FramesResume(a[i + 2..], b);
      ResumesAfterFirst(a, b, i);
      FirstOfBoth(a, b, i);
      FirstFrame(a, i);
    } else {
      NoFrame(a, b);
    }
  }

  lemma {:induction false} NoFrame(a: string, b: string)
    requires FirstBlank(a) < 0
    ensures Frames(a) + Frames(Remainder(a) + b) == Frames(a + b) && Remainder(a) == a
  {
    assert Frames(a) == [];
  }

  lemma {:induction false} Resumes(a: string, b: string)
    ensures Heard(a + b) == Heard(a) + Heard(Remainder(a) + b)
    ensures Remainder(a + b) == Remainder(Remainder(a) + b)
  {
    FramesResume(a, b);
    FlatMapConcat(Dispatched, Frames(a), Frames(Remainder(a) + b));
  }

  // ------------------------------------------------------------------- round trip

  /** No blank line inside a printed frame, nor across its end. */
  lemma {:induction false} FrameEnds(e: Emission, tail: string)
    requires Printable(e)
    ensures FirstBlank(FrameOf(e) + BLANK + tail) == |FrameOf(e)|
  {
    var f := FrameOf(e);
    var s := f + BLANK + tail;
    assert BlankAt(s, |f|);
    forall j | 0 <= j < |f| ensures !BlankAt(s, j) { NoBlankInside(e, tail, j); }
  }

  lemma {:induction false} NoBlankInside(e: Emission, tail: string, j: nat)
    requires Printable(e) && j < |FrameOf(e)|
    ensures !BlankAt(FrameOf(e) + BLANK + tail, j)
  {
    var f := FrameOf(e);
    if e.Event? {
      var head, data := "event: " + e.kind, "data: " + e.payload;
      assert f == head + "\n" + data;
      assert OneLine(head) && OneLine(data);
      if j < |head| {
        assert f[j] == head[j];
      } else if j == |head| {
        assert f[j + 1] == data[0];
      } else {
        assert f[j] == data[j - |head| - 1];
      }
    }
  }

  lemma {:induction false} NewlineAfter(a: string, b: string)
    requires OneLine(a)
    ensures !OneLine(a + "\n" + b) && FirstNewline(a + "\n" + b) == |a|
  {
    var s := a + "\n" + b;
    assert s[|a|] == '\n';
    if a != "" {
      NewlineAfter(a[1..], b);
      assert s[1..] == a[1..] + "\n" + b;
    }
  }

  lemma {:induction false} ColonAfter(a: string, b: string)
    requires ':' !in a
    ensures FirstColon(a + ":" + b) == |a|
  {
    if a != "" {
      ColonAfter(a[1..], b);
      assert (a + ":" + b)[1..] == a[1..] + ":" + b;
    }
  }

  lemma {:induction false} LinesOfTwo(head: string, data: string)
    requires OneLine(head) && OneLine(data)
    ensures Lines(head + "\n" + data) == [head, data]
  {
    var f := head + "\n" + data;
    NewlineAfter(head, data);
    assert f[..|head|] == head && f[|head| + 1..] == data;
    assert Lines(data) == [data];
  }

  lemma {:induction false} NamedLine(name: string, value: string)
    requires ':' !in name && name != ""
    ensures var line := name + ": " + value;
      !IsComment(line) && Field(line) == name && Value(line) == value
  {
    var line := name + ": " + value;
    assert line == name + ":" + (" " + value);
    ColonAfter(name, " " + value);
    assert line[..|name|] == name && line[|name| + 1..] == " " + value;
    assert line[0] == name[0] && (" " + value)[1..] == value;
  }

  lemma {:induction false} TwoLines(head: string, data: string)
    requires !IsComment(head) && Field(head) == "event" && !IsComment(data) && Field(data) == "data"
    ensures DataLines([head, data]) == [Value(data)] && EventType([head, data]) == Value(head)
  {
    assert [head, data][..1] == [head] && [head][..0] == [];
    assert |"data"| != |"event"|;
    assert DataLines([head]) == [] && EventType([head]) == Value(head);
  }

  lemma {:induction false} EventDispatches(kind: string, payload: string)
    requires OneLine(kind) && OneLine(payload)
    ensures Dispatched(FrameOf(Event(kind, payload))) == [(kind, payload)]
  {
    var head, data := "event: " + kind, "data: " + payload;
    assert FrameOf(Event(kind, payload)) == head + "\n" + data;
    NamedLine("event", kind);
    NamedLine("data", payload);
    assert head == "event" + ": " + kind && data == "data" + ": " + payload;
    LinesOfTwo(head, data);
    TwoLines(head, data);
  }

  lemma {:induction false} CommentIsSilent(line: string)
    requires IsComment(line) && OneLine(line)
    ensures Dispatched(line) == []
  {
    assert [line][..0] == [];
    assert Lines(line) == [line];
    assert DataLines([line]) == [];
  }

  /** One printed emission dispatches exactly itself; a keepalive dispatches nothing. */
  lemma {:induction false} EmissionDispatches(e: Emission)
    requires Printable(e)
    ensures Dispatched(FrameOf(e)) == if e.Event? then [(e.kind, e.payload)] else []
  {
    if e.Event? { EventDispatches(e.kind, e.payload); } else { CommentIsSilent(": keepalive"); }
  }

  /** The events of a list of emissions, keepalives left out. */
  function EventsOf(es: seq<Emission>): seq<(string, string)> {
    if es == [] then [] else (if es[0].Event? then [(es[0].kind, es[0].payload)] else []) + EventsOf(es[1..])
  }

  /** What was printed is what is heard, in order, with nothing left over. */
  lemma {:induction false} PrintedIsHeard(es: seq<Emission>)
    requires AllPrintable(es)
    ensures Heard(Printed(es)) == EventsOf(es) && Remainder(Printed(es)) == ""
  {
    if es != [] {
      var e, tail := es[0], Printed(es[1..]);
      var s := FrameOf(e) + BLANK + tail;
      FrameEnds(e, tail);
      EmissionDispatches(e);
      PrintedIsHeard(es[1..]);
      assert s[..|FrameOf(e)|] == FrameOf(e) && s[|FrameOf(e)| + 2..] == tail;
      FlatMapCons(Dispatched, FrameOf(e), Frames(tail));
    }
  }

  lemma {:induction false} PrintedAppend(es: seq<Emission>, e: Emission)
    ensures Printed(es + [e]) == Printed(es) + (FrameOf(e) + BLANK)
  {
    if es == [] {
      assert [] + [e] == [e] && [e][1..] == [];
    } else {
      PrintedAppend(es[1..], e);
      assert (es + [e])[1..] == es[1..] + [e];
      Assoc(FrameOf(es[0]) + BLANK, Printed(es[1..]), FrameOf(e) + BLANK);
    }
  }

  /** The server's loop: events and keepalives written one after another. Whoever reads the whole of it hears exactly
      the events, in order, and is left waiting for nothing. */
  method Serve(es: seq<Emission>) returns (out: string)
    requires AllPrintable(es)
    ensures Heard(out) == EventsOf(es) && Remainder(out) == ""
    ensures out == Printed(es)
  {
    out := "";
    for i := 0 to |es|
      invariant out == Printed(es[..i])
    {
      PrintedAppend(es[..i], es[i]);
      assert es[..i + 1] == es[..i] + [es[i]];
      match es[i] {
        case Event(kind, payload) => out := out + ("event: " + kind + "\ndata: " + payload + "\n\n");
        case Keepalive => out := out + ": keepalive\n\n";
      }
    }
    assert es[..|es|] == es;
    PrintedIsHeard(es);
  }

  /** End to end: whatever is served, and however the text is cut into chunks on the way, the reader dispatches
      exactly the events. */
  method ServeAndRead(ghost es: seq<Emission>, chunks: seq<string>) returns (heard: seq<(string, string)>)
    requires AllPrintable(es) && Concat(chunks) == Printed(es)
    ensures heard == EventsOf(es)
  {
    PrintedIsHeard(es);
    heard := ReadEventStream(chunks);
  }
}
