/**
 * Server-sent event framing. The server writes each event as an `event:` line,
 * a `data:` line holding the JSON payload and a blank line, and an idle stream
 * as a comment line. The partner of the formatters is the event-stream
 * interpretation of section 9.2.6 of the WHATWG HTML Living Standard: a
 * conforming client that reads a formatted event dispatches exactly that event.
 */
module Streaming {
  import opened Text
  import opened Json
  import opened Schemas

  /** The comment line the router writes when the graph has been idle. */
  const Heartbeat: string := ": heartbeat\n\n"

  predicate NoLineBreak(s: string) {
    forall i :: 0 <= i < |s| ==> s[i] != '\n' && s[i] != '\r'
  }

  /** The frame around an already serialised payload. */
  function Frame(eventType: string, payload: string): string {
    "event: " + eventType + "\ndata: " + payload + "\n\n"
  }

  // ----- the client side: section 9.2.6 of the WHATWG HTML Living Standard -----

  /** An event as a conforming client dispatches it: its type and its data. */
  datatype ServerEvent = ServerEvent(eventType: string, data: string)

  /** The event type buffer and the data buffer. */
  datatype ParserState = ParserState(eventType: string, data: string)

  const Fresh := ParserState("", "")

  /** The index of the first CR or LF, or -1 when the text holds no complete line. */
  function LineEnd(s: string): (r: int)
    ensures -1 <= r < |s|
    ensures r == -1 ==> NoLineBreak(s)
    ensures r >= 0 ==> (s[r] == '\n' || s[r] == '\r') && NoLineBreak(s[..r])
  {
    if |s| == 0 then -1
    else if s[0] == '\n' || s[0] == '\r' then 0
    else
      var t := LineEnd(s[1..]);
      if t == -1 then -1
      else
        assert s[..t + 1] == [s[0]] + s[1..][..t];
        t + 1
  }

  /** Processing one field: `event` sets the type, `data` appends a line; `id`, `retry` and unknown fields leave both buffers alone. */
  function ProcessField(st: ParserState, name: string, value: string): ParserState {
    if name == "event" then st.(eventType := value)
    else if name == "data" then st.(data := st.data + value + "\n")
    else st
  }

  /** Dispatching on a blank line: nothing when the data buffer is empty, and the buffers are cleared either way. */
  function Dispatch(st: ParserState): seq<ServerEvent> {
    if st.data == "" then []
    else [ServerEvent(if st.eventType == "" then "message" else st.eventType, st.data[..|st.data| - 1])]
  }

  /** One line: blank dispatches, a leading colon is a comment, otherwise a field and its value minus one leading space. */
  function ProcessLine(st: ParserState, line: string): (ParserState, seq<ServerEvent>) {
    if line == "" then (Fresh, Dispatch(st))
    else if line[0] == ':' then (st, [])
    else
      var c := Find(line, ':');
      if c == -1 then (ProcessField(st, line, ""), [])
      else
        var value := line[c + 1..];
        (ProcessField(st, line[..c], if |value| > 0 && value[0] == ' ' then value[1..] else value), [])
  }

  /** The events dispatched while reading `s`; a final line without its end-of-line is discarded. */
  function Feed(s: string, st: ParserState): seq<ServerEvent>
    decreases |s|
  {
    var i := LineEnd(s);
    if i == -1 then []
    else
      var next := if s[i] == '\r' && i + 1 < |s| && s[i + 1] == '\n' then i + 2 else i + 1;
      var (st', out) := ProcessLine(st, s[..i]);
      out + Feed(s[next..], st')
  }

  /** The events a client dispatches for a whole stream; one leading byte-order mark is skipped. */
  function ParseStream(s: string): seq<ServerEvent> {
    Feed(if |s| > 0 && s[0] == '\U{FEFF}' then s[1..] else s, Fresh)
  }

  lemma LineEndAt(a: string, b: string)
    requires NoLineBreak(a)
    ensures LineEnd(a + "\n" + b) == |a|
  {
    var s := a + "\n" + b;
    var r := LineEnd(s);
    assert s[|a|] == '\n';
  }

  lemma FindFieldColon(name: string, rest: string)
    requires ':' !in name
    ensures Find(name + ":" + rest, ':') == |name|
  {
    var s := name + ":" + rest;
    var r := Find(s, ':');
    assert s[|name|] == ':';
  }

  /** A field line `name: value` sets the field to `value`. */
  lemma FieldLine(st: ParserState, name: string, value: string)
    requires ':' !in name && name != ""
    ensures ProcessLine(st, name + ": " + value) == (ProcessField(st, name, value), [])
  {
    var line := name + ": " + value;
    assert line == name + ":" + (" " + value);
    FindFieldColon(name, " " + value);
    assert line[..|name|] == name;
    assert line[|name| + 1..] == " " + value;
  }

  /** Reading a complete line feeds it to the line processor and goes on with the rest. */
  lemma FeedLine(st: ParserState, line: string, rest: string)
    requires NoLineBreak(line)
    ensures Feed(line + "\n" + rest, st)
      == ProcessLine(st, line).1 + Feed(rest, ProcessLine(st, line).0)
  {
    var s := line + "\n" + rest;
    LineEndAt(line, rest);
    assert s[..|line|] == line;
    assert s[|line| + 1..] == rest;
  }

  lemma PrefixNoLineBreak(p: string, t: string)
    requires NoLineBreak(p) && NoLineBreak(t)
    ensures NoLineBreak(p + t)
  {
    var s := p + t;
    forall i | 0 <= i < |s| ensures s[i] != '\n' && s[i] != '\r' {
      if i >= |p| { assert s[i] == t[i - |p|]; }
    }
  }

  /** A field line `name: value` is read as that field. */
  lemma FeedField(st: ParserState, name: string, value: string, rest: string)
    requires ':' !in name && name != "" && NoLineBreak(name) && NoLineBreak(value)
    ensures Feed(name + ": " + value + "\n" + rest, st) == Feed(rest, ProcessField(st, name, value))
  {
    var line := name + ": " + value;
    PrefixNoLineBreak(name, ": ");
    PrefixNoLineBreak(name + ": ", value);
    FieldLine(st, name, value);
    FeedLine(st, line, rest);
  }

  /** A blank line dispatches what the buffers hold and clears them. */
  lemma FeedBlank(st: ParserState, rest: string)
    ensures Feed("\n" + rest, st) == Dispatch(st) + Feed(rest, Fresh)
  {
    assert "\n" + rest == "" + "\n" + rest;
    FeedLine(st, "", rest);
  }

  /** A client reading one framed event dispatches exactly that event and is back in its initial state. */
  lemma {:induction false} FeedFrame(t: string, d: string, rest: string)
    requires NoLineBreak(t) && NoLineBreak(d)
    ensures Feed(Frame(t, d) + rest, Fresh)
      == [ServerEvent(if t == "" then "message" else t, d)] + Feed(rest, Fresh)
  {
    var s3 := "\n" + rest;
    var s2 := "data" + ": " + d + "\n" + s3;
    assert Frame(t, d) + rest == "event" + ": " + t + "\n" + s2;
    FeedField(Fresh, "event", t, s2);
    var st1 := ProcessField(Fresh, "event", t);
    assert st1 == ParserState(t, "");
    FeedField(st1, "data", d, s3);
    var st2 := ProcessField(st1, "data", d);
    assert st2.data == d + "\n" && st2.eventType == t;
    FeedBlank(st2, rest);
    assert st2.data[..|st2.data| - 1] == d;
    assert Dispatch(st2) == [ServerEvent(if t == "" then "message" else t, d)];
  }

  /** A heartbeat comment dispatches nothing and leaves a fresh client fresh. */
  lemma FeedHeartbeat(rest: string)
    ensures Feed(Heartbeat + rest, Fresh) == Feed(rest, Fresh)
  {
    var c := ": heartbeat";
    var s2 := "" + "\n" + rest;
    assert Heartbeat + rest == c + "\n" + s2;
    FeedLine(Fresh, c, s2);
    FeedLine(Fresh, "", rest);
  }

  // ----- the server side: services/streaming.py -----

  /** `format_sse_event`: a conforming client reading the text dispatches one event with this type and the JSON text. */
  function FormatSseEvent(eventType: string, data: seq<Field>): (r: string)
    ensures NoLineBreak(eventType) && eventType != "" ==>
      ParseStream(r) == [ServerEvent(eventType, Dumps(JObj(data)))]
  {
    DumpsPrintable(JObj(data));
    FrameParses(eventType, Dumps(JObj(data)));
    Frame(eventType, Dumps(JObj(data)))
  }

  /** Whatever follows a formatted event, the client dispatches that event first and then reads on from a fresh state. */
  lemma FormatSseEventThenAnything(eventType: string, data: seq<Field>, rest: string)
    requires NoLineBreak(eventType) && eventType != ""
    ensures Feed(FormatSseEvent(eventType, data) + rest, Fresh) == [ServerEvent(eventType, Dumps(JObj(data)))] + Feed(rest, Fresh)
  {
    DumpsPrintable(JObj(data));
    FrameParses(eventType, Dumps(JObj(data)));
  }

  /** A frame with a line-free type and payload is read back as that one event, whatever follows it. */
  lemma FrameParses(t: string, d: string)
    requires AllPrintable(d)
    ensures NoLineBreak(t) && t != "" ==>
      forall rest :: Feed(Frame(t, d) + rest, Fresh) == [ServerEvent(t, d)] + Feed(rest, Fresh)
    ensures NoLineBreak(t) && t != "" ==> ParseStream(Frame(t, d)) == [ServerEvent(t, d)]
  {
    if NoLineBreak(t) && t != "" {
      forall rest: string ensures Feed(Frame(t, d) + rest, Fresh) == [ServerEvent(t, d)] + Feed(rest, Fresh) {
        FeedFrame(t, d, rest);
      }
      assert Frame(t, d) + "" == Frame(t, d);
      assert Feed("", Fresh) == [];
    }
  }

  /** The event types the server uses are single-line and non-empty. */
  lemma EventTypesLineFree()
    ensures NoLineBreak("reading_chunk") && NoLineBreak("grammar_chunk") && NoLineBreak("vocabulary_chunk")
    ensures NoLineBreak("done") && NoLineBreak("error")
    ensures NoLineBreak("reading_token") && NoLineBreak("grammar_token")
    ensures NoLineBreak("vocabulary_error")
  {
  }

  function FormatReadingChunk(data: seq<Field>): (r: string)
    ensures ParseStream(r) == [ServerEvent("reading_chunk", Dumps(JObj(data)))]
  {
    EventTypesLineFree();
    FormatSseEvent("reading_chunk", data)
  }

  function FormatGrammarChunk(data: seq<Field>): (r: string)
    ensures ParseStream(r) == [ServerEvent("grammar_chunk", Dumps(JObj(data)))]
  {
    EventTypesLineFree();
    FormatSseEvent("grammar_chunk", data)
  }

  function FormatVocabularyChunk(data: seq<Field>): (r: string)
    ensures ParseStream(r) == [ServerEvent("vocabulary_chunk", Dumps(JObj(data)))]
  {
    EventTypesLineFree();
    FormatSseEvent("vocabulary_chunk", data)
  }

  function DonePayload(sessionId: string): seq<Field> {
    [Field("session_id", JStr(sessionId)), Field("status", JStr("complete"))]
  }

  /** The `done` event: the client sees the session id and status "complete". */
  function FormatDoneEvent(sessionId: string): (r: string)
    ensures ParseStream(r) == [ServerEvent("done", Dumps(JObj(DonePayload(sessionId))))]
  {
    EventTypesLineFree();
    FormatSseEvent("done", DonePayload(sessionId))
  }

  function ErrorPayload(message: string, code: string): seq<Field> {
    [Field("message", JStr(message)), Field("code", JStr(code))]
  }

  /** The `error` event carries the message and the code, which defaults to "error". */
  function FormatErrorEvent(message: string, code: string := "error"): (r: string)
    ensures ParseStream(r) == [ServerEvent("error", Dumps(JObj(ErrorPayload(message, code))))]
  {
    EventTypesLineFree();
    FormatSseEvent("error", ErrorPayload(message, code))
  }

  function TokenPayload(token: Json): seq<Field> { [Field("token", token)] }

  function FormatReadingToken(token: string): (r: string)
    ensures ParseStream(r) == [ServerEvent("reading_token", Dumps(JObj(TokenPayload(JStr(token)))))]
  {
    EventTypesLineFree();
    FormatSseEvent("reading_token", TokenPayload(JStr(token)))
  }

  function FormatGrammarToken(token: string): (r: string)
    ensures ParseStream(r) == [ServerEvent("grammar_token", Dumps(JObj(TokenPayload(JStr(token)))))]
  {
    EventTypesLineFree();
    FormatSseEvent("grammar_token", TokenPayload(JStr(token)))
  }

  /**
   * The `vocabulary_error` event the router sends when the vocabulary agent
   * failed: the client sees the failure's message.
   */
  function FormatVocabularyError(message: string): (r: string)
    ensures ParseStream(r) == [ServerEvent("vocabulary_error", Dumps(JObj([Field("message", JStr(message))])))]
  {
    EventTypesLineFree();
    FormatSseEvent("vocabulary_error", [Field("message", JStr(message))])
  }

  /** The event type is the section name with "_done" appended; the payload names the section. */
  function FormatSectionDone(section: string): (r: string)
    ensures NoLineBreak(section) ==>
      ParseStream(r) == [ServerEvent(section + "_done", Dumps(JObj([Field("section", JStr(section))])))]
  {
    var t := section + "_done";
    assert NoLineBreak(section) ==> NoLineBreak(t);
    FormatSseEvent(t, [Field("section", JStr(section))])
  }

  /** A heartbeat dispatches no event at all. */
  lemma HeartbeatDispatchesNothing()
    ensures ParseStream(Heartbeat) == []
  {
    FeedHeartbeat("");
    assert Heartbeat + "" == Heartbeat;
  }
}
