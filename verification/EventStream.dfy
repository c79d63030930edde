/**
  The event-stream reader of the signed-request client (cli/signedreq/eventstream.go), against sections 9.2.5 and 9.2.6 of
  the WHATWG HTML standard: cut the whole stream into lines, then interpret line by line. A char stands for one byte.
 */
module EventStream {
  import opened Basics
  import Decimal

  /** The UTF-8 form of U+FEFF. */
  const BOM: string := ['\U{EF}', '\U{BB}', '\U{BF}']

  // ----- the standard: lines, then fields -----

  predicate LineEnd(c: char) {
    c == '\n' || c == '\r'
  }

  /** Where the first line ends: the position of its first CR or LF, or the length. */
  function LineLength(s: string): (n: nat)
    ensures n <= |s| && (n < |s| ==> LineEnd(s[n]))
  {
    if s == [] || LineEnd(s[0]) then 0 else 1 + LineLength(s[1..])
  }

  /** The complete lines of a text, ended by CRLF, LF or CR; an unfinished last line is dropped. */
  function Lines(s: string): seq<string>
    decreases |s|
  {
    var n := LineLength(s);
    if n == |s| then []
    else [s[..n]] + Lines(if s[n] == '\r' && n + 1 < |s| && s[n + 1] == '\n' then s[n + 2..] else s[n + 1..])
  }

  /** A byte order mark at the start is not part of the text. */
  function WithoutBOM(s: string): string {
    if BOM <= s then s[|BOM|..] else s
  }

  datatype Event = Event(id: string, event: string, data: string)

  /** What is kept between lines, and what was dispatched. */
  datatype State = State(lastEventID: string, reconnect: nat, idBuffer: string, eventType: string, data: string,
                         dispatched: seq<Event>)

  /** An empty line dispatches: the last event ID is set even when there is nothing to dispatch. */
  function Dispatch(st: State): State {
    if st.data == [] then st.(lastEventID := st.idBuffer, eventType := [])
    else
      var name := if st.eventType == [] then "message" else st.eventType;
      var data := if st.data[|st.data| - 1] == '\n' then st.data[..|st.data| - 1] else st.data;
      st.(lastEventID := st.idBuffer, eventType := [], data := [],
          dispatched := st.dispatched + [Event(st.idBuffer, name, data)])
  }

  const NANOS := 1000000 // to a millisecond

  function Field(st: State, field: string, value: string): State {
    if field == "event" then st.(eventType := value)
    else if field == "data" then st.(data := st.data + value + ['\n'])
    else if field == "id" then if '\0' in value then st else st.(idBuffer := value)
    else if field == "retry" then
      if value != [] && Decimal.AllDigits(value) then st.(reconnect := Decimal.Value(value) * NANOS) else st
    else st
  }

  /** One line: a dispatch, a comment, or a field with at most one space after its colon removed. */
  function Interpret(st: State, line: string): State {
    if line == [] then Dispatch(st)
    else
      match Cut(line, ':')
      case None => Field(st, line, [])
      case Some((field, value)) =>
        if field == [] then st
        else Field(st, field, if value != [] && value[0] == ' ' then value[1..] else value)
  }

  function InterpretAll(st: State, lines: seq<string>): State
    decreases |lines|
  {
    if lines == [] then st else InterpretAll(Interpret(st, lines[0]), lines[1..])
  }

  /** What one connection's body does to a stream with this last event ID and reconnection time; the buffers start empty. */
  function Standard(lastEventID: string, reconnect: nat, body: string): State {
    InterpretAll(State(lastEventID, reconnect, [], [], [], []), Lines(WithoutBOM(body)))
  }

  // ----- the reader -----

  const MAX_MS := 9223372036854 // the most milliseconds a 64-bit count of nanoseconds holds

  /** The reconnection time a line sets, if it is a retry line with one. */
  function RetryOf(line: string): Option<nat> {
    match Cut(line, ':')
    case None => None
    case Some((field, value)) =>
      var v := if value != [] && value[0] == ' ' then value[1..] else value;
      if field == "retry" && v != [] && Decimal.AllDigits(v) then Some(Decimal.Value(v)) else None
  }

  /** The reader's time is a 64-bit count, so it passes over a retry line with more than that holds. */
  predicate PassedOver(line: string) {
    RetryOf(line).Some? && RetryOf(line).value > MAX_MS
  }

  function Heeded(lines: seq<string>): seq<string> {
    if lines == [] then [] else (if PassedOver(lines[0]) then [] else [lines[0]]) + Heeded(lines[1..])
  }

  /** What one connection's body does to the reader: the lines it heeds, with the ID buffer starting at the last event ID. */
  function Reader(lastEventID: string, reconnect: nat, body: string): State {
    InterpretAll(State(lastEventID, reconnect, lastEventID, [], [], []), Heeded(Lines(WithoutBOM(body))))
  }

  function Take(st: State, line: string): State {
    if PassedOver(line) then st else Interpret(st, line)
  }

  /** The last reconnection time that lines set. */
  function LastRetry(lines: seq<string>): Option<nat> {
    if lines == [] then None
    else
      var later := LastRetry(lines[1..]);
      if later.Some? then later else RetryOf(lines[0])
  }

  lemma RetryLine(st: State, line: string)
    ensures RetryOf(line).Some? ==> Interpret(st, line) == st.(reconnect := RetryOf(line).value * NANOS)
    ensures RetryOf(line).None? ==> Interpret(st, line).reconnect == st.reconnect
  {}

  /** Only retry lines set the reconnection time, and the last of them decides. */
  lemma {:induction false} ReconnectIs(st: State, lines: seq<string>)
    ensures InterpretAll(st, lines).reconnect == if LastRetry(lines).Some? then LastRetry(lines).value * NANOS else st.reconnect
    decreases |lines|
  {
    if lines != [] {
      RetryLine(st, lines[0]);
      ReconnectIs(Interpret(st, lines[0]), lines[1..]);
    }
  }

  lemma {:induction false} LastHeeded(lines: seq<string>)
    ensures LastRetry(Heeded(lines)).Some? ==> LastRetry(Heeded(lines)).value <= MAX_MS
    ensures LastRetry(lines).Some? && LastRetry(lines).value <= MAX_MS ==> LastRetry(Heeded(lines)) == LastRetry(lines)
    ensures LastRetry(lines).None? ==> LastRetry(Heeded(lines)).None?
  {
    if lines != [] {
      LastHeeded(lines[1..]);
      var rest := Heeded(lines[1..]);
      assert !PassedOver(lines[0]) ==> ([lines[0]] + rest)[1..] == rest;
      assert PassedOver(lines[0]) ==> [] + rest == rest;
    }
  }

  /** Two readers that differ at most in their reconnection time. */
  predicate SameButReconnect(a: State, b: State) {
    a.(reconnect := 0) == b.(reconnect := 0)
  }

  lemma InterpretSame(a: State, b: State, line: string)
    requires SameButReconnect(a, b)
    ensures SameButReconnect(Interpret(a, line), Interpret(b, line))
  {}

  lemma {:induction false} HeededSame(a: State, b: State, lines: seq<string>)
    requires SameButReconnect(a, b)
    ensures SameButReconnect(InterpretAll(a, Heeded(lines)), InterpretAll(b, lines))
    decreases |lines|
  {
    if lines != [] {
      var line, rest := lines[0], Heeded(lines[1..]);
      if PassedOver(line) {
        RetryLine(b, line);
        assert [] + rest == rest;
        HeededSame(a, Interpret(b, line), lines[1..]);
      } else {
        assert ([line] + rest)[1..] == rest;
        InterpretSame(a, b, line);
        HeededSame(Interpret(a, line), Interpret(b, line), lines[1..]);
      }
    }
  }

  // ----- the ID buffer at the start of a connection -----

  /** The ID a line puts in the buffer, if it is an id line whose value is accepted. */
  function IdOf(line: string): Option<string> {
    if line == [] then None
    else
      var (field, value) := FieldOf(line);
      if field == "id" && '\0' !in value then Some(value) else None
  }

  /** A line's field and value. */
  function FieldOf(line: string): (string, string) {
    match Cut(line, ':')
    case None => (line, [])
    case Some((field, value)) => (field, if value != [] && value[0] == ' ' then value[1..] else value)
  }

  predicate DataLine(line: string) {
    line != [] && FieldOf(line).0 == "data"
  }

  /** An event is dispatched before the first accepted id line; `pending` when there is data already. */
  predicate EventBeforeId(lines: seq<string>, pending: bool) {
    lines != [] && IdOf(lines[0]).None?
    && ((lines[0] == [] && pending) || EventBeforeId(lines[1..], if lines[0] == [] then false else pending || DataLine(lines[0])))
  }

  /** Some accepted id line comes before some blank line. */
  predicate IdBeforeBlank(lines: seq<string>) {
    lines != [] && ((IdOf(lines[0]).Some? && [] in lines[1..]) || IdBeforeBlank(lines[1..]))
  }

  /** A connection that settles its own ID before it is used. */
  predicate OwnId(lines: seq<string>) {
    !EventBeforeId(lines, false) && ([] in lines ==> IdBeforeBlank(lines))
  }

  /** What the two readings show: the events dispatched and the last event ID. */
  predicate Agree(a: State, b: State) {
    a.dispatched == b.dispatched && a.lastEventID == b.lastEventID
  }

  /** The readings differ in IDs alone. */
  predicate SameButIds(a: State, b: State) {
    a.eventType == b.eventType && a.data == b.data && |a.dispatched| == |b.dispatched|
  }

  /** One line: where the two readings' buffers and last IDs stand after it. */
  lemma LineOnIds(a: State, b: State, line: string)
    requires SameButIds(a, b)
    ensures var a', b' := Interpret(a, line), Interpret(b, line);
      && SameButIds(a', b') && (a.dispatched != b.dispatched ==> a'.dispatched != b'.dispatched)
      && (IdOf(line).Some? ==> a'.idBuffer == b'.idBuffer == IdOf(line).value)
      && (IdOf(line).None? ==> a'.idBuffer == a.idBuffer && b'.idBuffer == b.idBuffer)
      && (line == [] ==> a'.lastEventID == a.idBuffer && b'.lastEventID == b.idBuffer && a'.data == [])
      && (line != [] ==>
            && a'.lastEventID == a.lastEventID && b'.lastEventID == b.lastEventID
            && a'.dispatched == a.dispatched && b'.dispatched == b.dispatched
            && (a'.data != [] <==> a.data != [] || DataLine(line)))
      && (line == [] && a.data == [] ==> a'.dispatched == a.dispatched && b'.dispatched == b.dispatched)
      && (line == [] && a.data != [] && a.idBuffer != b.idBuffer ==> a'.dispatched != b'.dispatched)
      && (a.idBuffer == b.idBuffer && a.dispatched == b.dispatched ==> a'.dispatched == b'.dispatched)
  {
    if line == [] {
      BlankOnIds(a, b);
    } else {
      FieldIs(a, line);
      FieldIs(b, line);
    }
  }

  lemma FieldIs(st: State, line: string)
    requires line != []
    ensures var (field, value) := FieldOf(line);
      Interpret(st, line) == if field == [] then st else Field(st, field, value)
  {}

  lemma BlankOnIds(a: State, b: State)
    requires SameButIds(a, b)
    ensures var a', b' := Dispatch(a), Dispatch(b);
      && SameButIds(a', b') && (a.dispatched != b.dispatched ==> a'.dispatched != b'.dispatched)
      && (a.data != [] && a.idBuffer != b.idBuffer ==> a'.dispatched != b'.dispatched)
      && (a.idBuffer == b.idBuffer && a.dispatched == b.dispatched ==> a'.dispatched == b'.dispatched)
  {
    var a', b', n := Dispatch(a), Dispatch(b), |a.dispatched|;
    if a.data != [] {
      assert a'.dispatched[..n] == a.dispatched && b'.dispatched[..n] == b.dispatched;
      assert a'.dispatched[n].id == a.idBuffer && b'.dispatched[n].id == b.idBuffer;
    }
  }

  /** Events that differ stay so. */
  lemma {:induction false} DifferForGood(a: State, b: State, lines: seq<string>)
    requires SameButIds(a, b) && a.dispatched != b.dispatched
    ensures InterpretAll(a, lines).dispatched != InterpretAll(b, lines).dispatched
    decreases |lines|
  {
    if lines != [] {
      LineOnIds(a, b, lines[0]);
      DifferForGood(Interpret(a, lines[0]), Interpret(b, lines[0]), lines[1..]);
    }
  }

  /** From equal buffers on, the last ID is the same exactly when it was or a blank line comes. */
  lemma {:induction false} AfterId(a: State, b: State, lines: seq<string>)
    requires SameButIds(a, b) && a.idBuffer == b.idBuffer && a.dispatched == b.dispatched
    ensures Agree(InterpretAll(a, lines), InterpretAll(b, lines)) <==> a.lastEventID == b.lastEventID || [] in lines
    decreases |lines|
  {
    if lines != [] {
      LineOnIds(a, b, lines[0]);
      AfterId(Interpret(a, lines[0]), Interpret(b, lines[0]), lines[1..]);
      assert lines == [lines[0]] + lines[1..];
    }
  }

  /** Before the first accepted id line one buffer holds the stored ID and the other none. */
  lemma {:induction false} BeforeId(a: State, b: State, lines: seq<string>)
    requires SameButIds(a, b) && a.dispatched == b.dispatched
    requires a.idBuffer == a.lastEventID != [] && b.idBuffer == [] && (b.lastEventID == a.lastEventID || b.lastEventID == [])
    ensures Agree(InterpretAll(a, lines), InterpretAll(b, lines)) <==>
      && !EventBeforeId(lines, a.data != [])
      && ((b.lastEventID == a.lastEventID && [] !in lines) || IdBeforeBlank(lines))
    decreases |lines|
  {
    if lines != [] {
      var line, rest := lines[0], lines[1..];
      var a', b' := Interpret(a, line), Interpret(b, line);
      assert lines == [line] + rest;
      LineOnIds(a, b, line);
      if IdOf(line).Some? {
        AfterId(a', b', rest);
        BlankInIds(rest);
      } else if line == [] && a.data != [] {
        DifferForGood(a', b', rest);
      } else {
        BeforeId(a', b', rest);
      }
    }
  }

  lemma {:induction false} BlankInIds(lines: seq<string>)
    ensures IdBeforeBlank(lines) ==> [] in lines
  {
    if lines != [] {
      BlankInIds(lines[1..]);
      assert lines == [lines[0]] + lines[1..];
    }
  }

  /**
    The reader against the standard, which starts every connection with an empty ID buffer: the events and the last event ID
    are the standard's if and only if none was stored, or the connection sends its own ID before any event and before its last
    blank line.
   */
  lemma EventsAreStandard(lastEventID: string, reconnect: nat, body: string)
    ensures Agree(Reader(lastEventID, reconnect, body), Standard(lastEventID, reconnect, body)) <==>
      lastEventID == [] || OwnId(Lines(WithoutBOM(body)))
  {
    var st, lines := State(lastEventID, reconnect, lastEventID, [], [], []), Lines(WithoutBOM(body));
    HeededSame(st, st, lines);
    if lastEventID != [] {
      BeforeId(st, st.(idBuffer := []), lines);
      BlankInIds(lines);
    }
  }

  /** A stored ID and one event without an ID of its own. */
  lemma StoredIdKept()
    ensures var body := "data:x\n\n";
      && Reader("5", 0, body).dispatched == [Event("5", "message", "x")]
      && Standard("5", 0, body).dispatched == [Event("", "message", "x")] && Standard("5", 0, body).lastEventID == ""
  {
    var body := "data:x\n\n";
    OneEvent(State("5", 0, "5", [], [], []));
    OneEvent(State("5", 0, "", [], [], []));
    TwoLines();
    HeededSame(State("5", 0, "5", [], [], []), State("5", 0, "5", [], [], []), ["data:x", ""]);
  }

  lemma TwoLines()
    ensures Lines(WithoutBOM("data:x\n\n")) == ["data:x", ""]
  {
    var s := "data:x\n\n";
    assert s[0] != BOM[0];
    assert !(BOM <= s);
    LineEnds("data:x", '\n', "\n");
    LineEnds("", '\n', "");
    assert "data:x" + ['\n'] + "\n" == s;
    assert "" + ['\n'] + "" == "\n";
  }

  lemma OneEvent(st: State)
    requires st.data == [] && st.eventType == [] && st.dispatched == []
    ensures var st' := InterpretAll(st, ["data:x", ""]);
      st'.dispatched == [Event(st.idBuffer, "message", "x")] && st'.lastEventID == st.idBuffer
  {
    CutFirst("data", ':', "x");
    assert "data" + [':'] + "x" == "data:x";
    var one := Interpret(st, "data:x");
    assert one == st.(data := "x\n");
    assert "x\n"[..1] == "x";
    var lines := ["data:x", ""];
    assert lines[1..] == [""] && [""][1..] == [];
    assert InterpretAll(st, lines) == InterpretAll(one, [""]) == InterpretAll(Dispatch(one), []);
  }

  /** And so is the reconnection time, if and only if the last retry line is none of those the reader passes over. */
  lemma ReaderIsStandard(lastEventID: string, reconnect: nat, body: string)
    requires reconnect <= MAX_MS * NANOS
    ensures var r, s := Reader(lastEventID, reconnect, body), Standard(lastEventID, reconnect, body);
      var lines := Lines(WithoutBOM(body));
      && (Agree(r, s) <==> lastEventID == [] || OwnId(lines))
      && (r.reconnect == s.reconnect <==> (LastRetry(lines).Some? ==> LastRetry(lines).value <= MAX_MS))
      && r.reconnect <= MAX_MS * NANOS
  {
    var st, lines := State(lastEventID, reconnect, lastEventID, [], [], []), Lines(WithoutBOM(body));
    EventsAreStandard(lastEventID, reconnect, body);
    ReconnectIs(st.(idBuffer := []), lines);
    ReconnectIs(st, Heeded(lines));
    LastHeeded(lines);
  }

  // ----- what a stream says, of its lines alone -----

  /** A field is what comes before the first colon, and its value what comes after it and one space. */
  lemma FieldReads(name: string, value: string)
    requires ':' !in name
    ensures FieldOf(name) == (name, "")
    ensures FieldOf(name + ": " + value) == (name, value)
    ensures value == [] || value[0] != ' ' ==> FieldOf(name + ":" + value) == (name, value)
  {
    CutNone(name, ':');
    CutFirst(name, ':', " " + value);
    assert name + ": " + value == name + [':'] + (" " + value);
    assert (" " + value)[1..] == value;
    CutFirst(name, ':', value);
    assert name + ":" + value == name + [':'] + value;
  }

  /** The values of the lines with this field, in order. */
  function Values(lines: seq<string>, field: string): seq<string> {
    if lines == [] then []
    else (if lines[0] != [] && FieldOf(lines[0]).0 == field then [FieldOf(lines[0]).1] else []) + Values(lines[1..], field)
  }

  /** The last of these, or what it was before. */
  function LastOf(values: seq<string>, before: string): string {
    if values == [] then before else values[|values| - 1]
  }

  /** The accepted values of the id lines, in order. */
  function Ids(lines: seq<string>): seq<string> {
    if lines == [] then [] else (if IdOf(lines[0]).Some? then [IdOf(lines[0]).value] else []) + Ids(lines[1..])
  }

  /** The lines up to the first blank one. */
  function Block(lines: seq<string>): seq<string> {
    if lines == [] || lines[0] == [] then [] else [lines[0]] + Block(lines[1..])
  }

  /** The lines after the first blank one. */
  function AfterBlank(lines: seq<string>): (rest: seq<string>)
    requires [] in lines
    ensures |rest| < |lines|
  {
    if lines[0] == [] then lines[1..] else AfterBlank(lines[1..])
  }

  /**
    What a block says at its blank line: nothing without a data line; else one event with the last accepted ID up to there,
    the last event line's name, or "message" without one, and the data lines' values with a line feed between each two.
   */
  function BlockSays(block: seq<string>, id: string): seq<Event> {
    var data, name := Values(block, "data"), LastOf(Values(block, "event"), []);
    if data == [] then [] else [Event(id, if name == [] then "message" else name, JoinFrom(data, "\n", 0))]
  }

  /** The events of a stream whose ID buffer starts with this. */
  function Says(lines: seq<string>, id: string): seq<Event>
    decreases |lines|
  {
    if [] !in lines then []
    else
      var block := Block(lines);
      var id' := LastOf(Ids(block), id);
      BlockSays(block, id') + Says(AfterBlank(lines), id')
  }

  /** The ID at the last blank line; without one it stays as it was. */
  function LastId(lines: seq<string>, id: string, before: string): string
    decreases |lines|
  {
    if [] !in lines then before
    else
      var id' := LastOf(Ids(Block(lines)), id);
      LastId(AfterBlank(lines), id', id')
  }

  // ----- and that the interpretation says so -----

  /** The data buffer after these values: each with a line feed behind it. */
  function Fed(values: seq<string>): string {
    if values == [] then [] else values[0] + ['\n'] + Fed(values[1..])
  }

  lemma {:induction false} FedIsJoined(values: seq<string>, i: nat)
    requires i < |values|
    ensures (if i > 0 then "\n" else "") + Fed(values[i..]) == JoinFrom(values, "\n", i) + ['\n']
    decreases |values| - i
  {
    var lead := if i > 0 then "\n" else "";
    assert values[i..][1..] == values[i + 1..];
    if i + 1 < |values| {
      FedIsJoined(values, i + 1);
      assert lead + Fed(values[i..]) == lead + values[i] + ("\n" + Fed(values[i + 1..]));
    } else {
      assert Fed(values[i + 1..]) == [] && JoinFrom(values, "\n", i + 1) == [];
    }
  }

  /** The data dispatched: the buffer without its last line feed. */
  lemma FedWithoutLast(values: seq<string>)
    requires values != []
    ensures var fed := Fed(values); fed != [] && fed[|fed| - 1] == '\n' && fed[..|fed| - 1] == JoinFrom(values, "\n", 0)
  {
    FedIsJoined(values, 0);
    assert values[0..] == values && "" + Fed(values) == Fed(values);
  }

  lemma {:induction false} FedAppend(values: seq<string>, more: seq<string>)
    ensures Fed(values + more) == Fed(values) + Fed(more)
  {
    if values == [] {
      assert values + more == more;
    } else {
      assert (values + more)[1..] == values[1..] + more;
      FedAppend(values[1..], more);
    }
  }

  lemma LastAppend(x: seq<string>, y: seq<string>, before: string)
    ensures LastOf(x + y, before) == LastOf(y, LastOf(x, before))
  {}

  /** One line that is not blank: what it adds to each buffer. */
  lemma LineAdds(st: State, line: string)
    requires line != []
    ensures var st' := Interpret(st, line);
      && st'.data == st.data + Fed(Values([line], "data")) && st'.eventType == LastOf(Values([line], "event"), st.eventType)
      && st'.idBuffer == LastOf(Ids([line]), st.idBuffer)
      && st'.dispatched == st.dispatched && st'.lastEventID == st.lastEventID
  {
    FieldIs(st, line);
    var (field, value) := FieldOf(line);
    assert [line][1..] == [] && Values([], "data") == [] && Values([], "event") == [] && Ids([]) == [];
    assert Fed([]) == [] && Fed([value]) == value + ['\n'] + Fed([value][1..]);
    assert field == "data" ==> Values([line], "data") == [value];
    assert field != "data" ==> Values([line], "data") == [];
    assert field == "event" ==> Values([line], "event") == [value];
    assert field != "event" ==> Values([line], "event") == [];
  }

  lemma ValuesStep(line: string, rest: seq<string>, field: string)
    ensures Values([line] + rest, field) == Values([line], field) + Values(rest, field)
  {
    assert ([line] + rest)[1..] == rest && [line][1..] == [];
    assert Values([], field) == [];
  }

  lemma IdsStep(line: string, rest: seq<string>)
    ensures Ids([line] + rest) == Ids([line]) + Ids(rest)
  {
    assert ([line] + rest)[1..] == rest && [line][1..] == [];
    assert Ids([]) == [];
  }

  /** A block of lines: what it leaves in the buffers. */
  lemma {:induction false} BlockAdds(st: State, block: seq<string>)
    requires [] !in block
    ensures var st' := InterpretAll(st, block);
      && st'.data == st.data + Fed(Values(block, "data")) && st'.eventType == LastOf(Values(block, "event"), st.eventType)
      && st'.idBuffer == LastOf(Ids(block), st.idBuffer)
      && st'.dispatched == st.dispatched && st'.lastEventID == st.lastEventID
    decreases |block|
  {
    if block != [] {
      var line, rest := block[0], block[1..];
      assert block == [line] + rest;
      LineAdds(st, line);
      BlockAdds(Interpret(st, line), rest);
      ValuesStep(line, rest, "data");
      ValuesStep(line, rest, "event");
      IdsStep(line, rest);
      FedAppend(Values([line], "data"), Values(rest, "data"));
      LastAppend(Values([line], "event"), Values(rest, "event"), st.eventType);
      LastAppend(Ids([line]), Ids(rest), st.idBuffer);
    }
  }

  lemma {:induction false} BlockIs(lines: seq<string>)
    ensures [] !in Block(lines)
    ensures [] in lines ==> lines == Block(lines) + [[]] + AfterBlank(lines)
    ensures [] !in lines ==> lines == Block(lines)
  {
    if lines != [] && lines[0] != [] {
      BlockIs(lines[1..]);
      assert lines == [lines[0]] + lines[1..];
    } else if lines != [] {
      assert lines == [[]] + lines[1..];
    }
  }

  lemma {:induction false} InterpretAppend(st: State, x: seq<string>, y: seq<string>)
    ensures InterpretAll(st, x + y) == InterpretAll(InterpretAll(st, x), y)
    decreases |x|
  {
    if x == [] {
      assert x + y == y;
    } else {
      assert (x + y)[1..] == x[1..] + y;
      InterpretAppend(Interpret(st, x[0]), x[1..], y);
    }
  }

  /** A blank line after a block dispatches what the block says. */
  lemma BlankSays(st: State, block: seq<string>)
    requires [] !in block && st.data == [] && st.eventType == []
    ensures var st', id := Dispatch(InterpretAll(st, block)), LastOf(Ids(block), st.idBuffer);
      && st'.data == [] && st'.eventType == [] && st'.idBuffer == id && st'.lastEventID == id
      && st'.dispatched == st.dispatched + BlockSays(block, id)
  {
    BlockAdds(st, block);
    var data := Values(block, "data");
    if data != [] {
      FedWithoutLast(data);
      assert [] + Fed(data) == Fed(data);
    } else {
      assert st.dispatched + [] == st.dispatched;
    }
  }

  lemma SaysStep(lines: seq<string>, id: string, before: string)
    requires [] in lines
    ensures var id' := LastOf(Ids(Block(lines)), id);
      && Says(lines, id) == BlockSays(Block(lines), id') + Says(AfterBlank(lines), id')
      && LastId(lines, id, before) == LastId(AfterBlank(lines), id', id')
  {}

  /** The interpretation, folded: it dispatches these events and ends with this last event ID. */
  ghost predicate Ends(st: State, lines: seq<string>, said: seq<Event>, last: string) {
    forall x :: x == lines ==> InterpretAll(st, x).dispatched == st.dispatched + said && InterpretAll(st, x).lastEventID == last
  }

  lemma ThenRest(st: State, next: State, lines: seq<string>, rest: seq<string>, said: seq<Event>, more: seq<Event>, last: string)
    requires next.dispatched == st.dispatched + said && Ends(next, rest, more, last)
    requires InterpretAll(st, lines) == InterpretAll(next, rest)
    ensures Ends(st, lines, said + more, last)
  {
    assert InterpretAll(next, rest).dispatched == next.dispatched + more && InterpretAll(next, rest).lastEventID == last;
    assert st.dispatched + said + more == st.dispatched + (said + more);
  }

  lemma NoBlank(st: State, lines: seq<string>)
    requires [] !in lines
    ensures Ends(st, lines, [], st.lastEventID)
  {
    BlockAdds(st, lines);
    assert st.dispatched + [] == st.dispatched;
  }

  /** From empty data and event type buffers on, the interpretation dispatches what the lines say. */
  lemma {:induction false} InterpretSays(st: State, lines: seq<string>)
    requires st.data == [] && st.eventType == []
    ensures Ends(st, lines, Says(lines, st.idBuffer), LastId(lines, st.idBuffer, st.lastEventID))
    decreases |lines|
  {
    if [] in lines {
      var block, rest, next := Block(lines), AfterBlank(lines), Dispatch(InterpretAll(st, Block(lines)));
      BlockIs(lines);
      BlankSays(st, block);
      InterpretSays(next, rest);
      var id := LastOf(Ids(block), st.idBuffer);
      AtBlank(st, block, rest);
      assert lines == block + ([[]] + rest);
      ThenRest(st, next, lines, rest, BlockSays(block, id), Says(rest, id), LastId(rest, id, id));
      SaysStep(lines, st.idBuffer, st.lastEventID);
    } else {
      NoBlank(st, lines);
    }
  }

  lemma AtBlank(st: State, block: seq<string>, rest: seq<string>)
    ensures InterpretAll(st, block + ([[]] + rest)) == InterpretAll(Dispatch(InterpretAll(st, block)), rest)
  {
    var tail: seq<string> := [[]] + rest;
    InterpretAppend(st, block, tail);
    assert tail[0] == [] && tail[1..] == rest;
  }

  /** What a connection's body makes the reader dispatch, remember and wait, of its lines alone. */
  lemma ReaderSays(lastEventID: string, reconnect: nat, body: string)
    ensures var r, lines := Reader(lastEventID, reconnect, body), Lines(WithoutBOM(body));
      && r.dispatched == Says(lines, lastEventID) && r.lastEventID == LastId(lines, lastEventID, lastEventID)
      && r.reconnect == if LastRetry(Heeded(lines)).Some? then LastRetry(Heeded(lines)).value * NANOS else reconnect
  {
    var st, lines := State(lastEventID, reconnect, lastEventID, [], [], []), Lines(WithoutBOM(body));
    HeededSame(st, st, lines);
    InterpretSays(st, lines);
    assert [] + Says(lines, lastEventID) == Says(lines, lastEventID);
    ReconnectIs(st, Heeded(lines));
  }

  // ----- the byte loop -----

  /** The line feed of a CRLF is skipped. */
  function AfterCR(afterCR: bool, s: string): string {
    if afterCR && s != [] && s[0] == '\n' then s[1..] else s
  }

  ghost predicate NoLineEnd(line: string) {
    forall i :: 0 <= i < |line| ==> !LineEnd(line[i])
  }

  /** The lines still to come for a reader holding this much of the current line. */
  function ToCome(line: string, afterCR: bool, firstLine: bool, s: string): seq<string> {
    var text := line + AfterCR(afterCR, s);
    Lines(if firstLine then WithoutBOM(text) else text)
  }

  lemma {:induction false} LineLengthIs(line: string, s: string)
    requires NoLineEnd(line) && (s == [] || LineEnd(s[0]))
    ensures LineLength(line + s) == |line|
  {
    if line == [] {
      assert line + s == s;
    } else {
      assert (line + s)[1..] == line[1..] + s;
      LineLengthIs(line[1..], s);
    }
  }

  lemma LineEnds(line: string, c: char, s: string)
    requires NoLineEnd(line) && LineEnd(c)
    ensures Lines(line + [c] + s) == [line] + Lines(AfterCR(c == '\r', s))
  {
    var text := line + [c] + s;
    assert text == line + ([c] + s);
    LineLengthIs(line, [c] + s);
    assert text[..|line|] == line && text[|line| + 1..] == s;
    assert s != [] ==> text[|line| + 1] == s[0] && text[|line| + 2..] == s[1..];
  }

  /** The mark, if any, lies within the first line. */
  lemma BOMInLine(line: string, c: char, s: string)
    requires NoLineEnd(line) && LineEnd(c)
    ensures WithoutBOM(line + [c] + s) == WithoutBOM(line) + [c] + s
    ensures NoLineEnd(WithoutBOM(line))
  {
    var text := line + [c] + s;
    if |line| < 3 {
      assert text[|line|] == c != BOM[|line|];
      assert !(BOM <= text) && !(BOM <= line);
    } else {
      assert text[0] == line[0] && text[1] == line[1] && text[2] == line[2];
      assert BOM <= text <==> BOM <= line;
    }
  }

  /** Nothing more comes without a line end. */
  lemma NothingToCome(line: string, afterCR: bool, firstLine: bool)
    requires NoLineEnd(line)
    ensures ToCome(line, afterCR, firstLine, []) == []
  {
    assert line + [] == line;
    var text := if firstLine then WithoutBOM(line) else line;
    assert text + [] == text;
    LineLengthIs(text, []);
  }

  lemma CharComes(line: string, afterCR: bool, firstLine: bool, c: char, s: string)
    requires !LineEnd(c)
    ensures ToCome(line, afterCR, firstLine, [c] + s) == ToCome(line + [c], false, firstLine, s)
  {
    assert line + ([c] + s) == line + [c] + s;
  }

  lemma LineComes(line: string, firstLine: bool, c: char, s: string)
    requires NoLineEnd(line) && LineEnd(c)
    ensures ToCome(line, false, firstLine, [c] + s)
         == [if firstLine then WithoutBOM(line) else line] + ToCome([], c == '\r', false, s)
  {
    assert line + ([c] + s) == line + [c] + s;
    assert [] + AfterCR(c == '\r', s) == AfterCR(c == '\r', s);
    if firstLine {
      BOMInLine(line, c, s);
      LineEnds(WithoutBOM(line), c, s);
    } else {
      LineEnds(line, c, s);
    }
  }

  lemma NextLine(st: State, line: string, more: seq<string>)
    ensures InterpretAll(st, Heeded([line] + more)) == InterpretAll(Take(st, line), Heeded(more))
  {
    assert ([line] + more)[1..] == more;
    var rest := Heeded(more);
    assert !PassedOver(line) ==> ([line] + rest)[1..] == rest;
    assert PassedOver(line) ==> [] + rest == rest;
  }

  /** A reader in this state, with this much of the body to come, ends as the goal says, folded. */
  ghost predicate OnTrack(st: State, line: string, afterCR: bool, firstLine: bool, rest: string, goal: State) {
    NoLineEnd(line) && forall x :: x == rest ==> InterpretAll(st, Heeded(ToCome(line, afterCR, firstLine, x))) == goal
  }

  lemma OnTrackAtStart(lastEventID: string, reconnect: nat, body: string)
    ensures OnTrack(State(lastEventID, reconnect, lastEventID, [], [], []), [], false, true, body,
                    Reader(lastEventID, reconnect, body))
  {
    assert [] + body == body;
  }

  lemma OnTrackSkip(st: State, line: string, firstLine: bool, rest: string, goal: State)
    requires OnTrack(st, line, true, firstLine, ['\n'] + rest, goal)
    ensures OnTrack(st, line, false, firstLine, rest, goal)
  {
    assert (['\n'] + rest)[1..] == rest;
    assert ToCome(line, true, firstLine, ['\n'] + rest) == ToCome(line, false, firstLine, rest);
    assert InterpretAll(st, Heeded(ToCome(line, true, firstLine, ['\n'] + rest))) == goal;
  }

  lemma OnTrackNoSkip(st: State, line: string, firstLine: bool, c: char, rest: string, goal: State)
    requires c != '\n' && OnTrack(st, line, true, firstLine, [c] + rest, goal)
    ensures OnTrack(st, line, false, firstLine, [c] + rest, goal)
  {
    assert InterpretAll(st, Heeded(ToCome(line, true, firstLine, [c] + rest))) == goal;
  }

  lemma OnTrackChar(st: State, line: string, firstLine: bool, c: char, rest: string, goal: State)
    requires !LineEnd(c) && OnTrack(st, line, false, firstLine, [c] + rest, goal)
    ensures OnTrack(st, line + [c], false, firstLine, rest, goal)
  {
    CharComes(line, false, firstLine, c, rest);
    assert InterpretAll(st, Heeded(ToCome(line, false, firstLine, [c] + rest))) == goal;
  }

  lemma OnTrackLine(st: State, line: string, firstLine: bool, c: char, rest: string, goal: State)
    requires LineEnd(c) && OnTrack(st, line, false, firstLine, [c] + rest, goal)
    ensures OnTrack(Take(st, if firstLine then WithoutBOM(line) else line), [], c == '\r', false, rest, goal)
  {
    LineComes(line, firstLine, c, rest);
    NextLine(st, if firstLine then WithoutBOM(line) else line, ToCome([], c == '\r', false, rest));
    assert InterpretAll(st, Heeded(ToCome(line, false, firstLine, [c] + rest))) == goal;
  }

  lemma OnTrackAtEnd(st: State, line: string, afterCR: bool, firstLine: bool, goal: State)
    requires OnTrack(st, line, afterCR, firstLine, [], goal)
    ensures st == goal
  {
    NothingToCome(line, afterCR, firstLine);
    assert InterpretAll(st, Heeded(ToCome(line, afterCR, firstLine, []))) == goal;
  }

  class Stream {
    var lastEventID: string
    var reconnect: nat

    constructor ()
      ensures lastEventID == [] && reconnect == 0
    {
      lastEventID, reconnect := [], 0;
    }

    /** What the reader does at the end of a line. */
    method TakeLine(line: string, idBuffer0: string, eventType0: string, data0: string, out0: seq<Event>)
      returns (idBuffer: string, eventType: string, data: string, out: seq<Event>)
      modifies this
      ensures State(lastEventID, reconnect, idBuffer, eventType, data, out)
           == Take(State(old(lastEventID), old(reconnect), idBuffer0, eventType0, data0, out0), line)
    {
      idBuffer, eventType, data, out := idBuffer0, eventType0, data0, out0;
      if line == [] {
        lastEventID := idBuffer;
        if data != [] {
          var name := if eventType == [] then "message" else eventType;
          out := out + [Event(lastEventID, name, if data[|data| - 1] == '\n' then data[..|data| - 1] else data)];
        }
        data, eventType := [], [];
        return;
      }
      var cut := Cut(line, ':');
      var field := if cut.Some? then cut.value.0 else line;
      var value := if cut.Some? then cut.value.1 else [];
      if field == [] {
        return;
      }
      if value != [] && value[0] == ' ' {
        value := value[1..];
      }
      if field == "event" {
        eventType := value;
      } else if field == "data" {
        data := data + value + ['\n'];
      } else if field == "id" {
        if '\0' !in value {
          idBuffer := value;
        }
      } else if field == "retry" {
        var ms := Decimal.ParseUint(value, MAX_MS);
        if ms.Some? {
          reconnect := ms.value * NANOS;
        }
      }
    }

    /** What one connection's body says is dispatched, remembered and waited for, of its lines alone. */
    method Read(body: string) returns (out: seq<Event>)
      modifies this
      ensures var st := Reader(old(lastEventID), old(reconnect), body);
        out == st.dispatched && lastEventID == st.lastEventID && reconnect == st.reconnect
      ensures var lines := Lines(WithoutBOM(body));
        && out == Says(lines, old(lastEventID)) && lastEventID == LastId(lines, old(lastEventID), old(lastEventID))
        && reconnect == if LastRetry(Heeded(lines)).Some? then LastRetry(Heeded(lines)).value * NANOS else old(reconnect)
      ensures var std := Standard(old(lastEventID), old(reconnect), body);
        out == std.dispatched && lastEventID == std.lastEventID <==> old(lastEventID) == [] || OwnId(Lines(WithoutBOM(body)))
    {
      EventsAreStandard(lastEventID, reconnect, body);
      ReaderSays(lastEventID, reconnect, body);
      out := ReadBytes(body);
    }

    /** One byte at a time, the reader dispatches, remembers and waits as a line-by-line reading of the lines it heeds does. */
    method ReadBytes(body: string) returns (out: seq<Event>)
      modifies this
      ensures var st := Reader(old(lastEventID), old(reconnect), body);
        out == st.dispatched && lastEventID == st.lastEventID && reconnect == st.reconnect
    {
      ghost var goal := Reader(lastEventID, reconnect, body);
      OnTrackAtStart(lastEventID, reconnect, body);
      var line, data, eventType, idBuffer: string := [], [], [], lastEventID;
      var afterCR, firstLine := false, true;
      out := [];
      assert body[0..] == body;
      var i := 0;
      while i < |body|
        invariant 0 <= i <= |body|
        invariant OnTrack(State(lastEventID, reconnect, idBuffer, eventType, data, out), line, afterCR, firstLine, body[i..], goal)
      {
        ghost var st := State(lastEventID, reconnect, idBuffer, eventType, data, out);
        var c := body[i];
        assert body[i..] == [c] + body[i + 1..];
        i := i + 1;
        if afterCR {
          afterCR := false;
          if c == '\n' {
            OnTrackSkip(st, line, firstLine, body[i..], goal);
            continue;
          }
          OnTrackNoSkip(st, line, firstLine, c, body[i..], goal);
        }
        if !LineEnd(c) {
          OnTrackChar(st, line, firstLine, c, body[i..], goal);
          line := line + [c];
          continue;
        }
        OnTrackLine(st, line, firstLine, c, body[i..], goal);
        afterCR := c == '\r';
        if firstLine {
          line := WithoutBOM(line);
          firstLine := false;
        }
        idBuffer, eventType, data, out := TakeLine(line, idBuffer, eventType, data, out);
        line := [];
      }
      assert body[i..] == [];
      OnTrackAtEnd(State(lastEventID, reconnect, idBuffer, eventType, data, out), line, afterCR, firstLine, goal);
    }
  }
}
