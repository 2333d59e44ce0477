/** The text the server writes on an SSE connection, and how a client reads it: an independent reader
    written from section 9.2.6, "Interpreting an event stream", of the HTML Living Standard. */
module SseFrames {
  import opened Common

  // ---- Printing

  datatype Packet =
    | Frame(event: string, data: string)
    | Ping

  function Text(p: Packet): string {
    match p
    case Frame(event, data) =>
      (if event != "" then "event: " + event + "\n" else "") + "data: " + data + "\n\n"
    case Ping => ": ping\n\n"
  }

  function Wire(packets: seq<Packet>): string {
    if packets == [] then "" else Text(packets[0]) + Wire(packets[1..])
  }

  // ---- Reading

  datatype Event = Event(kind: string, data: string, lastId: string)

  predicate IsBreak(c: char) { c == '\n' || c == '\r' }

  predicate Unbroken(s: string) {
    forall i :: 0 <= i < |s| ==> !IsBreak(s[i])
  }

  /** Where the first line break stands, or the length. */
  function LineEnd(s: string): (n: nat)
    ensures n <= |s|
  {
    if s == "" || IsBreak(s[0]) then 0 else 1 + LineEnd(s[1..])
  }

  /** How many characters the line break at `n` has. */
  function BreakLength(s: string, n: nat): (k: nat)
    requires n < |s|
    ensures 1 <= k && n + k <= |s|
  {
    if s[n] == '\r' && n + 1 < |s| && s[n + 1] == '\n' then 2 else 1
  }

  /** The complete lines: each ends with CR LF, CR or LF. */
  function Lines(s: string): seq<string> {
    var n := LineEnd(s);
    if n == |s| then [] else [s[..n]] + Lines(s[n + BreakLength(s, n)..])
  }

  /** The buffers of a client between two lines. */
  datatype Buffers = Buffers(event: string, data: string, id: string)

  function Colon(line: string): (n: nat)
    ensures n <= |line| && (n < |line| ==> line[n] == ':')
    ensures forall i :: 0 <= i < n ==> line[i] != ':'
  {
    if line == "" || line[0] == ':' then 0 else 1 + Colon(line[1..])
  }

  function Value(line: string): string {
    var n := Colon(line);
    if n == |line| then ""
    else if n + 1 < |line| && line[n + 1] == ' ' then line[n + 2..]
    else line[n + 1..]
  }

  function Field(b: Buffers, line: string): Buffers {
    var name := line[..Colon(line)];
    var value := Value(line);
    if name == "event" then b.(event := value)
    else if name == "data" then b.(data := b.data + value + "\n")
    else if name == "id" && '\0' !in value then b.(id := value)
    else b
  }

  function Dispatch(b: Buffers): seq<Event> {
    if b.data == "" then []
    else
      var data := if b.data[|b.data| - 1] == '\n' then b.data[..|b.data| - 1] else b.data;
      [Event(if b.event == "" then "message" else b.event, data, b.id)]
  }

  /** Blank lines dispatch; what is still buffered at the end is dropped. */
  function Interpret(b: Buffers, lines: seq<string>): seq<Event>
    decreases |lines|
  {
    if lines == [] then []
    else if lines[0] == "" then Dispatch(b) + Interpret(Buffers("", "", b.id), lines[1..])
    else Interpret(Field(b, lines[0]), lines[1..])
  }

  const FRESH := Buffers("", "", "")

  function Read(stream: string): seq<Event> {
    var text := if stream != "" && stream[0] == '\U{FEFF}' then stream[1..] else stream;
    Interpret(FRESH, Lines(text))
  }

  // ---- What a client should see

  function Shown(p: Packet): seq<Event> {
    match p
    case Frame(event, data) => [Event(if event == "" then "message" else event, data, "")]
    case Ping => []
  }

  function AllShown(packets: seq<Packet>): seq<Event> {
    if packets == [] then [] else Shown(packets[0]) + AllShown(packets[1..])
  }

  predicate Plain(p: Packet) {
    p.Frame? ==> Unbroken(p.event) && Unbroken(p.data)
  }

  /** Nothing, or a write that was cut short. */
  predicate CutOff(tail: string, p: Packet) {
    |tail| < |Text(p)| && tail == Text(p)[..|tail|]
  }

  // ---- Packets as lines

  function Body(p: Packet): seq<string> {
    match p
    case Frame(event, data) => (if event != "" then ["event: " + event] else []) + ["data: " + data]
    case Ping => [": ping"]
  }

  function Join(lines: seq<string>): string {
    if lines == [] then "" else lines[0] + "\n" + Join(lines[1..])
  }

  predicate Solid(lines: seq<string>) {
    forall i :: 0 <= i < |lines| ==> lines[i] != "" && Unbroken(lines[i])
  }

  lemma JoinLines(first: string, second: string)
    ensures Join([first]) == first + "\n"
    ensures Join([first, second]) == first + "\n" + (second + "\n")
  {
    assert [first][1..] == [] && [second][1..] == [] && [first, second][1..] == [second];
    assert Join([second]) == second + "\n" + "" == second + "\n";
    assert Join([first]) == first + "\n" + "" == first + "\n";
  }

  lemma TextIsBody(p: Packet)
    ensures Text(p) == Join(Body(p)) + "\n"
    ensures Plain(p) ==> Solid(Body(p))
  {
    match p
    case Frame(event, data) =>
      JoinLines("data: " + data, "");
      JoinLines("event: " + event, "data: " + data);
      assert ["event: " + event] + ["data: " + data] == ["event: " + event, "data: " + data];
    case Ping =>
      JoinLines(": ping", "");
  }

  predicate FirstBreakAt(s: string, n: nat) {
    n < |s| && IsBreak(s[n]) && forall i :: 0 <= i < n ==> !IsBreak(s[i])
  }

  lemma {:induction false} LineEndAt(s: string, n: nat)
    requires FirstBreakAt(s, n)
    ensures LineEnd(s) == n
  {
    if n > 0 {
      assert !IsBreak(s[0]);
      assert forall i :: 0 <= i < n - 1 ==> s[1..][i] == s[i + 1];
      LineEndAt(s[1..], n - 1);
    }
  }

  lemma {:induction false} LineEndFacts(s: string)
    ensures LineEnd(s) < |s| ==> FirstBreakAt(s, LineEnd(s))
    ensures LineEnd(s) == |s| <==> Unbroken(s)
  {
    if s != "" && !IsBreak(s[0]) {
      LineEndFacts(s[1..]);
      assert forall i :: 0 <= i < |s| - 1 ==> s[1..][i] == s[i + 1];
    }
  }

  /** One line of a text whose first break is at `n`. */
  lemma LinesStep(s: string, n: nat)
    requires FirstBreakAt(s, n)
    ensures Lines(s) == [s[..n]] + Lines(s[n + BreakLength(s, n)..])
  {
    LineEndAt(s, n);
  }

  lemma FirstLine(line: string, rest: string)
    requires Unbroken(line)
    ensures Lines(line + "\n" + rest) == [line] + Lines(rest)
  {
    var s, n := line + "\n" + rest, |line|;
    assert s[n] == '\n';
    assert forall i :: 0 <= i < n ==> s[i] == line[i];
    LinesStep(s, n);
    assert s[..n] == line && s[n + 1..] == rest;
  }

  /** The lines, a blank line, and what follows. */
  function Stanza(lines: seq<string>, rest: string): string {
    if lines == [] then "" + "\n" + rest else lines[0] + "\n" + Stanza(lines[1..], rest)
  }

  lemma {:induction false} StanzaIsJoin(lines: seq<string>, rest: string)
    ensures Stanza(lines, rest) == Join(lines) + "\n" + rest
  {
    if lines != [] {
      StanzaIsJoin(lines[1..], rest);
    }
  }

  lemma SolidTail(lines: seq<string>)
    requires Solid(lines) && lines != []
    ensures Solid(lines[1..]) && Unbroken(lines[0]) && lines[0] != ""
  {
    assert forall i :: 0 <= i < |lines| - 1 ==> lines[1..][i] == lines[i + 1];
  }

  lemma StanzaFirst(lines: seq<string>, rest: string) returns (more: seq<string>)
    requires lines != [] && Unbroken(lines[0])
    ensures more == Lines(Stanza(lines[1..], rest)) && Lines(Stanza(lines, rest)) == [lines[0]] + more
  {
    FirstLine(lines[0], Stanza(lines[1..], rest));
    more := Lines(Stanza(lines[1..], rest));
  }

  lemma {:induction false} LinesOfStanza(lines: seq<string>, rest: string)
    requires Solid(lines)
    ensures Lines(Stanza(lines, rest)) == lines + [""] + Lines(rest)
  {
    if lines == [] {
      FirstLine("", rest);
    } else {
      SolidTail(lines);
      var more := StanzaFirst(lines, rest);
      LinesOfStanza(lines[1..], rest);
      Regroup([lines[0]], lines[1..] + [""], Lines(rest));
      Regroup([lines[0]], lines[1..], [""]);
      assert [lines[0]] + lines[1..] == lines;
    }
  }

  lemma CutInFirstLine(lines: seq<string>, tail: string)
    requires Solid(lines) && lines != [] && tail <= Join(lines) && |tail| <= |lines[0]|
    ensures Lines(tail) == []
  {
    assert forall i :: 0 <= i < |tail| ==> tail[i] == Join(lines)[i] == lines[0][i];
    LineEndFacts(tail);
  }

  lemma CutLater(lines: seq<string>, tail: string) returns (rest: string)
    requires Solid(lines) && lines != [] && tail <= Join(lines) && |tail| > |lines[0]|
    ensures rest <= Join(lines[1..]) && Lines(tail) == [lines[0]] + Lines(rest)
  {
    var line := lines[0];
    rest := tail[|line| + 1..];
    assert Join(lines)[|line|] == '\n';
    assert tail == line + "\n" + rest;
    assert Join(lines)[|line| + 1..] == Join(lines[1..]);
    FirstLine(line, rest);
  }

  /** Text cut before the blank line has no blank line. */
  lemma {:induction false} CutHasNoBlank(lines: seq<string>, tail: string)
    requires Solid(lines) && tail <= Join(lines)
    ensures "" !in Lines(tail)
    decreases |lines|
  {
    if lines == [] {
      assert tail == "";
    } else if |tail| <= |lines[0]| {
      CutInFirstLine(lines, tail);
    } else {
      SolidTail(lines);
      var rest := CutLater(lines, tail);
      CutHasNoBlank(lines[1..], rest);
    }
  }

  lemma {:induction false} NoBlankNoEvent(b: Buffers, lines: seq<string>)
    requires "" !in lines
    ensures Interpret(b, lines) == []
    decreases |lines|
  {
    if lines != [] {
      NoBlankNoEvent(Field(b, lines[0]), lines[1..]);
    }
  }

  // ---- Round trip

  lemma FieldLine(b: Buffers, data: string)
    ensures Field(b, "event: " + data) == b.(event := data)
    ensures Field(b, "data: " + data) == b.(data := b.data + data + "\n")
    ensures Field(b, ": ping") == b
  {
    var e, d, p := "event: " + data, "data: " + data, ": ping";
    assert Colon(e) == 5 by { assert e[5] == ':'; }
    assert e[..5] == "event" && e[7..] == data;
    assert Colon(d) == 4 by { assert d[4] == ':'; }
    assert d[..4] == "data" && d[6..] == data;
    assert p[0] == ':' && Colon(p) == 0 && p[..0] == "";
  }

  lemma ReadField(b: Buffers, line: string, rest: seq<string>)
    requires line != ""
    ensures Interpret(b, [line] + rest) == Interpret(Field(b, line), rest)
  {
    assert ([line] + rest)[1..] == rest;
  }

  lemma ReadBlank(b: Buffers, rest: seq<string>)
    ensures Interpret(b, [""] + rest) == Dispatch(b) + Interpret(Buffers("", "", b.id), rest)
  {
    assert ([""] + rest)[1..] == rest;
  }

  lemma ReadData(b: Buffers, data: string, rest: seq<string>)
    requires b.data == "" && b.id == ""
    ensures Interpret(b, ["data: " + data] + ([""] + rest))
      == [Event(if b.event == "" then "message" else b.event, data, "")] + Interpret(FRESH, rest)
  {
    FieldLine(b, data);
    ReadField(b, "data: " + data, [""] + rest);
    DispatchOne(b, data);
    ReadBlank(Field(b, "data: " + data), rest);
  }

  /** Reading the lines of one packet shows that packet and leaves the buffers fresh. */
  lemma BodyRead(p: Packet, rest: seq<string>)
    ensures Interpret(FRESH, Body(p) + [""] + rest) == Shown(p) + Interpret(FRESH, rest)
  {
    match p
    case Frame(event, data) =>
      var d := "data: " + data;
      if event != "" {
        var e := "event: " + event;
        FieldLine(FRESH, event);
        ReadField(FRESH, e, [d] + ([""] + rest));
        ReadData(FRESH.(event := event), data, rest);
        assert Body(p) + [""] + rest == [e] + ([d] + ([""] + rest));
      } else {
        ReadData(FRESH, data, rest);
        assert Body(p) + [""] + rest == [d] + ([""] + rest);
      }
    case Ping =>
      FieldLine(FRESH, "");
      ReadField(FRESH, ": ping", [""] + rest);
      ReadBlank(FRESH, rest);
      assert Body(p) + [""] + rest == [": ping"] + ([""] + rest);
  }

  lemma DispatchOne(b: Buffers, data: string)
    requires b.data == ""
    ensures Dispatch(b.(data := b.data + data + "\n")) == [Event(if b.event == "" then "message" else b.event, data, b.id)]
  {
    assert "" + data + "\n" == data + "\n";
    assert (data + "\n")[..|data|] == data;
  }

  lemma PacketRead(p: Packet, rest: string)
    requires Plain(p)
    ensures Interpret(FRESH, Lines(Text(p) + rest)) == Shown(p) + Interpret(FRESH, Lines(rest))
  {
    TextIsBody(p);
    StanzaIsJoin(Body(p), rest);
    LinesOfStanza(Body(p), rest);
    BodyRead(p, Lines(rest));
  }

  function WireTo(packets: seq<Packet>, tail: string): string {
    if packets == [] then tail else Text(packets[0]) + WireTo(packets[1..], tail)
  }

  function ShownTo(packets: seq<Packet>, tail: seq<Event>): seq<Event> {
    if packets == [] then tail else Shown(packets[0]) + ShownTo(packets[1..], tail)
  }

  lemma {:induction false} WireToIs(packets: seq<Packet>, tail: string)
    ensures WireTo(packets, tail) == Wire(packets) + tail
  {
    if packets == [] {
    } else {
      WireToIs(packets[1..], tail);
      Regroup(Text(packets[0]), Wire(packets[1..]), tail);
    }
  }

  lemma {:induction false} ShownToIs(packets: seq<Packet>)
    ensures ShownTo(packets, []) == AllShown(packets)
  {
    if packets == [] {
    } else {
      ShownToIs(packets[1..]);
    }
  }

  lemma {:induction false} WireRead(packets: seq<Packet>, tail: string)
    requires forall i :: 0 <= i < |packets| ==> Plain(packets[i])
    ensures Interpret(FRESH, Lines(WireTo(packets, tail))) == ShownTo(packets, Interpret(FRESH, Lines(tail)))
    decreases |packets|
  {
    if packets == [] {
    } else {
      PacketRead(packets[0], WireTo(packets[1..], tail));
      WireRead(packets[1..], tail);
    }
  }

  lemma NoBom(packets: seq<Packet>, tail: string, cut: Packet)
    requires CutOff(tail, cut)
    ensures Wire(packets) + tail != "" ==> (Wire(packets) + tail)[0] != '\U{FEFF}'
  {
    TextStart(cut);
    if packets != [] {
      TextStart(packets[0]);
    }
  }

  lemma TextStart(p: Packet)
    ensures Text(p) != "" && Text(p)[0] in "ed:"
  {
  }

  /** A client reads exactly the events written, whatever the last, unfinished write left behind. */
  lemma RoundTrip(packets: seq<Packet>, tail: string, cut: Packet)
    requires forall i :: 0 <= i < |packets| ==> Plain(packets[i])
    requires Plain(cut) && CutOff(tail, cut)
    ensures Read(Wire(packets) + tail) == AllShown(packets)
  {
    NoBom(packets, tail, cut);
    WireRead(packets, tail);
    WireToIs(packets, tail);
    ShownToIs(packets);
    TextIsBody(cut);
    assert tail <= Join(Body(cut));
    CutHasNoBlank(Body(cut), tail);
    NoBlankNoEvent(FRESH, Lines(tail));
  }

  // ---- A frame reads back exactly when it holds no line break

  /** The first line and what is left after its break. */
  lemma LinesFirst(s: string) returns (line: string, rest: string)
    requires LineEnd(s) < |s|
    ensures Lines(s) == [line] + Lines(rest)
    ensures Unbroken(line) && line == s[..LineEnd(s)] && |line| + 1 + |rest| <= |s|
  {
    LineEndFacts(s);
    var n := LineEnd(s);
    LinesStep(s, n);
    line, rest := LineAndRest(s, n);
  }

  lemma LineAndRest(s: string, n: nat) returns (line: string, rest: string)
    requires FirstBreakAt(s, n)
    ensures line == s[..n] && rest == s[n + BreakLength(s, n)..]
    ensures Unbroken(line) && |line| + 1 + |rest| <= |s|
  {
    line, rest := s[..n], s[n + BreakLength(s, n)..];
  }

  lemma {:induction false} LinesUnbroken(s: string)
    ensures forall i :: 0 <= i < |Lines(s)| ==> Unbroken(Lines(s)[i])
    ensures Weight(Lines(s)) <= |s|
    decreases |s|
  {
    if LineEnd(s) < |s| {
      var line, rest := LinesFirst(s);
      LinesUnbroken(rest);
      assert Lines(s)[1..] == Lines(rest);
    }
  }

  function Weight(lines: seq<string>): nat {
    if lines == [] then 0 else |lines[0]| + 1 + Weight(lines[1..])
  }

  lemma ValueUnbroken(line: string)
    requires Unbroken(line)
    ensures Unbroken(Value(line)) && |Value(line)| <= |line| - Colon(line)
  {
  }

  /** No event's type holds a line break. */
  lemma {:induction false} KindsUnbroken(b: Buffers, lines: seq<string>, i: nat)
    requires Unbroken(b.event) && forall k :: 0 <= k < |lines| ==> Unbroken(lines[k])
    requires i < |Interpret(b, lines)|
    ensures Unbroken(Interpret(b, lines)[i].kind)
    decreases |lines|
  {
    if lines[0] == "" {
      if i >= |Dispatch(b)| {
        KindsUnbroken(Buffers("", "", b.id), lines[1..], i - |Dispatch(b)|);
      }
    } else {
      ValueUnbroken(lines[0]);
      KindsUnbroken(Field(b, lines[0]), lines[1..], i);
    }
  }

  lemma DataGrows(b: Buffers, line: string)
    requires Unbroken(line)
    ensures var after := Field(b, line).data;
      after == b.data || (after != "" && after[|after| - 1] == '\n' && |after| <= |b.data| + |line| - 3)
  {
    ValueUnbroken(line);
  }

  /** The data of an event is what was buffered, or shorter than the lines it came from. */
  lemma {:induction false} DataShrinks(b: Buffers, lines: seq<string>, i: nat)
    requires b.data == "" || b.data[|b.data| - 1] == '\n'
    requires forall k :: 0 <= k < |lines| ==> Unbroken(lines[k])
    requires i < |Interpret(b, lines)|
    ensures var size := |Interpret(b, lines)[i].data| + 1;
      size <= |b.data| || size + 5 <= |b.data| + Weight(lines)
    decreases |lines|
  {
    if lines[0] == "" {
      if i >= |Dispatch(b)| {
        DataShrinks(Buffers("", "", b.id), lines[1..], i - |Dispatch(b)|);
      }
    } else {
      DataGrows(b, lines[0]);
      DataShrinks(Field(b, lines[0]), lines[1..], i);
      assert lines[1..] != [];
    }
  }

  lemma FirstBreakWithin(pre: string, s: string, post: string, n: nat)
    requires Unbroken(pre) && FirstBreakAt(s, n)
    ensures var text := pre + s + post; FirstBreakAt(text, |pre| + n) && text[..|pre| + n] == pre + s[..n]
  {
    var text := pre + s + post;
    assert forall i :: 0 <= i < |pre| ==> text[i] == pre[i];
    assert forall i :: |pre| <= i < |pre| + |s| ==> text[i] == s[i - |pre|];
  }

  /** The first line of broken data, and how little is left. */
  lemma BrokenLines(data: string) returns (rest: string)
    requires !Unbroken(data)
    ensures LineEnd(data) < |data|
    ensures Lines("data: " + data + "\n\n") == ["data: " + data[..LineEnd(data)]] + Lines(rest)
    ensures |rest| <= |data| - LineEnd(data) + 1
  {
    var n := LineEnd(data);
    LineEndFacts(data);
    FirstBreakWithin("data: ", data, "\n\n", n);
    LineEndAt("data: " + data + "\n\n", 6 + n);
    var line;
    line, rest := LinesFirst("data: " + data + "\n\n");
  }

  /** Data with a line break comes back shorter. */
  lemma BrokenDataRead(b: Buffers, data: string, i: nat)
    requires b.data == "" && !Unbroken(data)
    requires i < |Interpret(b, Lines("data: " + data + "\n\n"))|
    ensures |Interpret(b, Lines("data: " + data + "\n\n"))[i].data| < |data|
  {
    var rest := BrokenLines(data);
    var first := data[..LineEnd(data)];
    FieldLine(b, first);
    ReadField(b, "data: " + first, Lines(rest));
    assert b.data + first + "\n" == first + "\n";
    LinesUnbroken(rest);
    DataShrinks(b.(data := first + "\n"), Lines(rest), i);
  }

  // ---- Text that ends a line reads on by itself

  /** What follows text that ends a line does not change its first break. */
  lemma SameBreak(a: string, b: string, n: nat) returns (k: nat)
    requires FirstBreakAt(a, n) && a[|a| - 1] == '\n'
    ensures k == BreakLength(a, n) == BreakLength(a + b, n)
    ensures FirstBreakAt(a + b, n) && (a + b)[..n] == a[..n] && (a + b)[n + k..] == a[n + k..] + b
  {
    assert forall i :: 0 <= i < |a| ==> (a + b)[i] == a[i];
    k := BreakLength(a, n);
  }

  lemma LinesSplit(a: string, b: string) returns (line: string, rest: string)
    requires a != "" && a[|a| - 1] == '\n'
    ensures Lines(a) == [line] + Lines(rest) && Lines(a + b) == [line] + Lines(rest + b)
    ensures |rest| < |a| && (rest == "" || rest[|rest| - 1] == '\n')
  {
    var n := LineEnd(a);
    LineEndFacts(a);
    var k := SameBreak(a, b, n);
    LinesStep(a, n);
    LinesStep(a + b, n);
    line, rest := a[..n], a[n + k..];
  }

  lemma {:induction false} LinesAppend(a: string, b: string)
    requires a != "" && a[|a| - 1] == '\n'
    ensures Lines(a + b) == Lines(a) + Lines(b)
    decreases |a|
  {
    var line, rest := LinesSplit(a, b);
    if rest == "" {
      assert rest + b == b;
      assert Lines(rest) == [];
      assert [line] + [] == [line];
    } else {
      LinesAppend(rest, b);
      Regroup([line], Lines(rest), Lines(b));
    }
  }

  /** A blank line ends text that ends with two line feeds. */
  lemma BlankAtEnd(s: string)
    ensures "" in Lines(s + "\n" + "\n")
  {
    LinesAppend(s + "\n", "\n");
    FirstLine("", "");
    assert "" + "\n" + "" == "\n";
    assert Lines("\n")[0] == "";
  }

  /** More lines only add events behind those there are. */
  lemma {:induction false} InterpretOn(b: Buffers, lines: seq<string>, more: seq<string>)
    ensures Interpret(b, lines) <= Interpret(b, lines + more)
    decreases |lines|
  {
    if lines == [] {
    } else {
      assert (lines + more)[1..] == lines[1..] + more;
      if lines[0] == "" {
        InterpretOn(Buffers("", "", b.id), lines[1..], more);
      } else {
        InterpretOn(Field(b, lines[0]), lines[1..], more);
      }
    }
  }

  /** Buffered data are dispatched by the next blank line. */
  lemma {:induction false} BlankDispatches(b: Buffers, lines: seq<string>)
    requires b.data != "" && "" in lines
    ensures Interpret(b, lines) != []
    decreases |lines|
  {
    if lines[0] != "" {
      BlankDispatches(Field(b, lines[0]), lines[1..]);
    }
  }

  // ---- A stream reads back exactly when no frame holds a line break

  /** Broken data dispatch an event of their own, whatever follows, and it is shorter. */
  lemma BrokenDataFirst(b: Buffers, data: string, more: string)
    requires b.data == "" && !Unbroken(data)
    ensures var events := Interpret(b, Lines("data: " + data + "\n\n" + more));
      events != [] && |events[0].data| < |data|
  {
    var body := "data: " + data + "\n\n";
    LinesAppend(body, more);
    InterpretOn(b, Lines(body), Lines(more));
    BrokenDataShows(b, data);
    BrokenDataRead(b, data, 0);
  }

  lemma BrokenDataShows(b: Buffers, data: string)
    requires b.data == "" && !Unbroken(data)
    ensures Interpret(b, Lines("data: " + data + "\n\n")) != []
  {
    var rest := BrokenLines(data);
    var first := "data: " + data[..LineEnd(data)];
    FieldLine(b, data[..LineEnd(data)]);
    ReadField(b, first, Lines(rest));
    BlankAtEnd("data: " + data);
    assert "data: " + data + "\n" + "\n" == "data: " + data + "\n\n";
    BlankDispatches(Field(b, first), Lines(rest));
  }

  lemma TextWithEvent(event: string, data: string, more: string)
    ensures Text(Frame(event, data)) + more ==
      (if event == "" then "" else "event: " + event + "\n") + ("data: " + data + "\n\n" + more)
  {
  }

  /** After the event line, if there is one, a frame is its data. */
  lemma EventLineRead(event: string, data: string, more: string) returns (b: Buffers)
    requires Unbroken(event)
    ensures b.data == ""
    ensures Interpret(FRESH, Lines(Text(Frame(event, data)) + more)) == Interpret(b, Lines("data: " + data + "\n\n" + more))
  {
    TextWithEvent(event, data, more);
    var body := "data: " + data + "\n\n" + more;
    if event == "" {
      b := FRESH;
      assert "" + body == body;
    } else {
      b := FRESH.(event := event);
      FirstLine("event: " + event, body);
      FieldLine(FRESH, event);
      ReadField(FRESH, "event: " + event, Lines(body));
    }
  }

  /** A broken frame's first event is not the one written, whatever follows. */
  lemma BrokenFrameMisread(event: string, data: string, more: string)
    requires !Unbroken(event) || !Unbroken(data)
    ensures var events := Interpret(FRESH, Lines(Text(Frame(event, data)) + more));
      events == [] || events[0] != Shown(Frame(event, data))[0]
  {
    if !Unbroken(event) {
      LinesUnbroken(Text(Frame(event, data)) + more);
      if |Interpret(FRESH, Lines(Text(Frame(event, data)) + more))| > 0 {
        KindsUnbroken(FRESH, Lines(Text(Frame(event, data)) + more), 0);
      }
    } else {
      var b := EventLineRead(event, data, more);
      BrokenDataFirst(b, data, more);
    }
  }

  lemma WireFirst(packets: seq<Packet>) returns (p: Packet, rest: seq<Packet>, more: string)
    requires packets != []
    ensures p == packets[0] && rest == packets[1..] && more == Wire(rest)
    ensures Wire(packets) == Text(p) + more && AllShown(packets) == Shown(p) + AllShown(rest)
  {
    p, rest := packets[0], packets[1..];
    more := Wire(rest);
  }

  lemma SamePrefix<T>(a: seq<T>, x: seq<T>, y: seq<T>)
    requires a + x == a + y
    ensures x == y
  {
    assert x == (a + x)[|a|..] && y == (a + y)[|a|..];
  }

  lemma {:induction false} BrokenWireMisread(packets: seq<Packet>)
    requires exists i :: 0 <= i < |packets| && !Plain(packets[i])
    ensures Interpret(FRESH, Lines(Wire(packets))) != AllShown(packets)
    decreases |packets|
  {
    var p, rest, more := WireFirst(packets);
    if Plain(p) {
      var i :| 0 <= i < |packets| && !Plain(packets[i]);
      assert rest[i - 1] == packets[i];
      BrokenWireMisread(rest);
      PacketRead(p, more);
      if Shown(p) + Interpret(FRESH, Lines(more)) == Shown(p) + AllShown(rest) {
        SamePrefix(Shown(p), Interpret(FRESH, Lines(more)), AllShown(rest));
      }
    } else {
      BrokenFrameMisread(p.event, p.data, more);
      assert AllShown(packets)[0] == Shown(p)[0];
    }
  }

  /** A stream of frames and pings reads back as the events it was made from if and only if no frame
      holds a line break in its event or its data. */
  lemma StreamReadsBackIff(packets: seq<Packet>)
    ensures Read(Wire(packets)) == AllShown(packets) <==> forall i :: 0 <= i < |packets| ==> Plain(packets[i])
  {
    assert CutOff("", Ping);
    NoBom(packets, "", Ping);
    assert Wire(packets) + "" == Wire(packets);
    if forall i :: 0 <= i < |packets| ==> Plain(packets[i]) {
      RoundTrip(packets, "", Ping);
    } else {
      BrokenWireMisread(packets);
    }
  }
}
