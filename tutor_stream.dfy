/**
 * The client hook that reads the analysis stream: a read loop that keeps the
 * incomplete last line in a buffer, a line handler that remembers the last
 * `event:` type and applies each `data:` line to the displayed state, and
 * the formatter for the vocabulary list. Bytes arrive already decoded to
 * text; JSON parsing and pretty-printing are parameters.
 */
module TutorStream {
  import opened Wrappers
  import opened Text
  import opened Json
  import Schemas

  // ----- JavaScript values -----

  /** `String(v)`, as a template literal substitutes it. */
  function JsString(j: Json): string
    decreases j, 1
  {
    match j
    case JNull => "null"
    case JBool(b) => if b then "true" else "false"
    case JInt(i) => IntToString(i)
    case JStr(s) => s
    case JArr(items) => Join(ElementStrings(j, items), ",")
    case JObj(_) => "[object Object]"
  }

  /** How `Array.prototype.join` writes each element: `null` as nothing, the rest as `String` does. */
  function ElementStrings(ghost parent: Json, items: seq<Json>): (r: seq<string>)
    requires forall x :: x in items ==> x < parent
    ensures |r| == |items|
    decreases parent, 0, |items|
  {
    if |items| == 0 then []
    else
      assert items[0] in items;
      assert forall x :: x in items[1..] ==> x in items;
      [if items[0] == JNull then "" else JsString(items[0])] + ElementStrings(parent, items[1..])
  }

  /** `v || fallback` inside a template literal: the value's text when it is truthy. */
  function OrText(v: Option<Json>, fallback: string): string {
    if v.Some? && Truthy(v.value) then JsString(v.value) else fallback
  }

  // ----- the vocabulary formatter -----

  /**
   * `word.synonyms?.slice(0, 3).join(", ") || ""`: nothing for a missing or
   * `null` list, the first three joined for an array, and a `TypeError`
   * (`None`) for anything else, which has no `join` after `slice`.
   */
  function SynonymText(synonyms: Option<Json>): (r: Option<string>)
    ensures r.Some? <==> synonyms.None? || synonyms.value == JNull || synonyms.value.JArr?
    ensures synonyms.Some? && synonyms.value == JArr([]) ==> r == Some("")
  {
    if synonyms.None? || synonyms.value == JNull then Some("")
    else if synonyms.value.JArr? then
      var xs := synonyms.value.items;
      var shown := if |xs| <= 3 then xs else xs[..3];
      Some(Join(ElementStrings(JArr(shown), shown), ", "))
    else None
  }

  /** One numbered entry; a `null` word makes reading its fields throw. */
  function EntryText(w: Json, number: nat): (r: Option<string>)
    ensures r.Some? <==>
      (w != JNull && (Member(w, "synonyms").None? || Member(w, "synonyms").value == JNull || Member(w, "synonyms").value.JArr?))
  {
    if w == JNull then None
    else
      var synonyms := SynonymText(Member(w, "synonyms"));
      if synonyms.None? then None
      else Some(EntryHead(number) + EntryBody(OrText(Member(w, "term"), "Unknown"), OrText(Member(w, "meaning"), "N/A"),
        OrText(Member(w, "usage"), "N/A"), if synonyms.value == "" then "N/A" else synonyms.value))
  }

  /** The number that opens an entry. */
  function EntryHead(number: nat): string {
    NatToString(number) + ". **"
  }

  /** The rest of an entry: the term in bold, then one indented line per field. */
  function EntryBody(term: string, meaning: string, usage: string, synonyms: string): string {
    term + "**\n   - Meaning: " + meaning + "\n   - Usage: " + usage + "\n   - Synonyms: " + synonyms
  }

  /** The entries numbered from `first` on, or `None` when one of them throws. */
  function EntryTexts(ws: seq<Json>, first: nat): (r: Option<seq<string>>)
    ensures r.Some? ==> |r.value| == |ws|
  {
    if |ws| == 0 then Some([])
    else
      var e := EntryText(ws[0], first);
      var rest := EntryTexts(ws[1..], first + 1);
      if e.None? || rest.None? then None else Some([e.value] + rest.value)
  }

  /**
   * `formatVocabularyData(data)`: "" for a missing or falsy word list and for
   * one whose `length` is the number 0 (an empty array, or an object with a
   * `length` member equal to 0), the numbered entries joined by blank lines for
   * an array, and `None` for the `TypeError` of a `null` payload or of any other
   * truthy list that is not an array (it has no `map`).
   */
  function FormatVocabularyData(data: Json): (r: Option<string>)
    ensures data == JNull ==> r.None?
    ensures r.Some? && r.value != "" ==>
      Member(data, "words").Some? && Member(data, "words").value.JArr? && |Member(data, "words").value.items| > 0
  {
    if data == JNull then None
    else
      var words := Member(data, "words");
      if words.None? || !Truthy(words.value) then Some("")
      else if words.value.JObj? && Member(words.value, "length") == Some(JInt(0)) then Some("")
      else if !words.value.JArr? then None
      else if |words.value.items| == 0 then Some("")
      else
        var es := EntryTexts(words.value.items, 1);
        if es.None? then None else Some(Join(es.value, "\n\n"))
  }

  // ----- the hook's state -----

  /** The thrown value a `catch` sees: an `Error` with its name and message, or anything else. */
  datatype Thrown = JsError(name: string, message: string) | NotAnError

  datatype ErrorValue = ErrorValue(name: string, message: string)

  /**
   * `TutorStreamState`. The reading and grammar contents hold whatever value
   * the handler picked from the payload, which is a string unless the
   * payload's field held something else.
   */
  datatype StreamState = StreamState(
    readingContent: Json,
    grammarContent: Json,
    vocabularyContent: string,
    isStreaming: bool,
    error: Option<ErrorValue>)

  const Initial := StreamState(JStr(""), JStr(""), "", false, None)

  /** The state `startStream` sets before fetching: contents and error cleared, streaming. */
  function Started(st: StreamState): (r: StreamState)
    ensures r == StreamState(JStr(""), JStr(""), "", true, None)
  {
    st.(isStreaming := true, error := None, readingContent := JStr(""), grammarContent := JStr(""), vocabularyContent := "")
  }

  /** The outer `catch`: an `Error` other than an abort stops streaming and is recorded; anything else changes nothing. */
  function Caught(st: StreamState, t: Thrown): (r: StreamState)
    ensures r.readingContent == st.readingContent && r.grammarContent == st.grammarContent
      && r.vocabularyContent == st.vocabularyContent
    ensures r != st ==> !r.isStreaming && r.error.Some? && r.error.value.name != "AbortError"
    ensures t.JsError? && t.name != "AbortError" ==> r.error == Some(ErrorValue(t.name, t.message))
  {
    if t.JsError? && t.name != "AbortError" then st.(isStreaming := false, error := Some(ErrorValue(t.name, t.message)))
    else st
  }

  /** `data[first] || data.content || JSON.stringify(data, null, 2)`. */
  function Pick(data: Json, first: string, pretty: Json -> string): (r: Json)
    ensures (Truthy(r) && (Member(data, first) == Some(r) || Member(data, "content") == Some(r))) || r == JStr(pretty(data))
  {
    var a := Member(data, first);
    var c := Member(data, "content");
    if a.Some? && Truthy(a.value) then a.value
    else if c.Some? && Truthy(c.value) then c.value
    else JStr(pretty(data))
  }

  /**
   * What a `data:` line does to the state under the current event type:
   * `parsed` is `JSON.parse`'s result, `None` when it throws. Reading a
   * field of a `null` payload throws, and the `catch` around the handler
   * leaves the state as it was.
   */
  function ApplyData(st: StreamState, event: string, parsed: Option<Json>, pretty: Json -> string): (r: StreamState)
    ensures r.isStreaming == st.isStreaming && r.error == st.error
    ensures event != "reading_chunk" ==> r.readingContent == st.readingContent
    ensures event != "grammar_chunk" ==> r.grammarContent == st.grammarContent
    ensures event != "vocabulary_chunk" ==> r.vocabularyContent == st.vocabularyContent
  {
    if parsed.None? || parsed.value == JNull then st
    else
      var data := parsed.value;
      if event == "reading_chunk" then st.(readingContent := Pick(data, "summary", pretty))
      else if event == "grammar_chunk" then st.(grammarContent := Pick(data, "analysis", pretty))
      else if event == "vocabulary_chunk" then
        var v := FormatVocabularyData(data);
        if v.None? then st else st.(vocabularyContent := v.value)
      else st
  }

  /** The line handler's variables: the state, `currentEvent`, and whether a `done` data line has ended the stream. */
  datatype LineState = LineState(st: StreamState, currentEvent: string, stopped: bool)

  /** One complete line. */
  function HandleLine(ls: LineState, line: string, parse: string -> Option<Json>, pretty: Json -> string): (r: LineState)
    ensures r.st.error == ls.st.error
    ensures ls.stopped ==> r.stopped
    ensures r.stopped && !ls.stopped ==> !r.st.isStreaming
  {
    if StartsWith(line, "event: ") then ls.(currentEvent := JsTrim(line[7..]))
    else if StartsWith(line, "data: ") then
      if ls.currentEvent == "done" then LineState(ls.st.(isStreaming := false), ls.currentEvent, true)
      else ls.(st := ApplyData(ls.st, ls.currentEvent, parse(JsTrim(line[6..])), pretty))
    else ls
  }

  /** Lines in order; once the stream has ended, nothing changes. */
  function HandleLines(ls: LineState, lines: seq<string>, parse: string -> Option<Json>, pretty: Json -> string): (r: LineState)
    ensures r.st.error == ls.st.error
    ensures ls.stopped ==> r == ls
    ensures r.stopped && !ls.stopped ==> !r.st.isStreaming
    decreases |lines|
  {
    if |lines| == 0 || ls.stopped then ls
    else HandleLines(HandleLine(ls, lines[0], parse, pretty), lines[1..], parse, pretty)
  }

  /** The complete lines and the new buffer after a chunk: everything before the last `\n`, and what follows it. */
  function CompleteLines(buffer: string, chunk: string): (seq<string>, string) {
    var parts := Split(buffer + chunk, '\n');
    (parts[..|parts| - 1], parts[|parts| - 1])
  }

  /** The read loop over the remaining chunks. */
  function ReadChunks(ls: LineState, buffer: string, chunks: seq<string>, parse: string -> Option<Json>, pretty: Json -> string): (r: LineState)
    ensures r.st.error == ls.st.error
    ensures ls.stopped ==> r == ls
    ensures r.stopped && !ls.stopped ==> !r.st.isStreaming
    decreases |chunks|
  {
    if |chunks| == 0 then ls
    else
      var (lines, rest) := CompleteLines(buffer, chunks[0]);
      ReadChunks(HandleLines(ls, lines, parse, pretty), rest, chunks[1..], parse, pretty)
  }

  /**
   * What `fetchFn()` gives: a rejection, a response without a body, or a body
   * delivering chunks until it ends or a read throws.
   */
  datatype Response = FetchFailed(thrown: Thrown) | NoBody | Body(chunks: seq<string>, failure: Option<Thrown>)

  /** The state after `startStream(fetchFn)`. */
  function StreamOutcome(st: StreamState, response: Response, parse: string -> Option<Json>, pretty: Json -> string): (r: StreamState)
    ensures response.Body? && response.failure.None? ==> !r.isStreaming
    ensures r.error.Some? ==> r.error.value.name != "AbortError"
    ensures r.isStreaming ==> r.error.None?
  {
    var started := Started(st);
    match response
    case FetchFailed(t) => Caught(started, t)
    case NoBody => Caught(started, JsError("Error", "Response body is not readable"))
    case Body(chunks, failure) =>
      var ls := ReadChunks(LineState(started, "", false), "", chunks, parse, pretty);
      if ls.stopped then ls.st
      else if failure.Some? then Caught(ls.st, failure.value)
      else ls.st.(isStreaming := false)
  }

  /** `useTutorStream()`: the state and the current abort controller, if any. */
  class TutorStreamHook {
    var state: StreamState
    var controllerActive: bool

    constructor ()
      ensures state == Initial && !controllerActive
    {
      state := Initial;
      controllerActive := false;
    }

    /** `reset()`: aborts the current stream, if any, and restores the initial state. */
    method Reset()
      modifies this
      ensures state == Initial && !controllerActive
    {
      controllerActive := false;
      state := Initial;
    }

    /** `startStream(fetchFn)`, run to its end; the `finally` clears the controller. */
    method StartStream(response: Response, parse: string -> Option<Json>, pretty: Json -> string)
      modifies this
      ensures state == StreamOutcome(old(state), response, parse, pretty)
      ensures !controllerActive
    {
      controllerActive := true;
      state := state.(isStreaming := true, error := None, readingContent := JStr(""), grammarContent := JStr(""), vocabularyContent := "");
      match response {
        case FetchFailed(t) =>
          state := Caught(state, t);
        case NoBody =>
          state := Caught(state, JsError("Error", "Response body is not readable"));
        case Body(chunks, failure) =>
          ghost var start := LineState(state, "", false);
          var buffer := "";
          var currentEvent := "";
          var i := 0;
          while i < |chunks|
            invariant 0 <= i <= |chunks|
            invariant ReadChunks(LineState(state, currentEvent, false), buffer, chunks[i..], parse, pretty)
              == ReadChunks(start, "", chunks, parse, pretty)
          {
            assert chunks[i..][1..] == chunks[i + 1..];
            var parts := Split(buffer + chunks[i], '\n');
            var lines := parts[..|parts| - 1];
            buffer := parts[|parts| - 1];
            var stopped;
            currentEvent, stopped := ReadLines(lines, currentEvent, parse, pretty);
            if stopped {
              controllerActive := false;
              return;
            }
            i := i + 1;
          }
          if failure.Some? {
            state := Caught(state, failure.value);
          } else {
            state := state.(isStreaming := false);
          }
      }
      controllerActive := false;
    }

    /** The inner loop of `startStream` over one chunk's complete lines; `stopped` when a `done` event's data line ends the stream. */
    method ReadLines(lines: seq<string>, event: string, parse: string -> Option<Json>, pretty: Json -> string)
      returns (currentEvent: string, stopped: bool)
      modifies this
      ensures LineState(state, currentEvent, stopped) == HandleLines(LineState(old(state), event, false), lines, parse, pretty)
      ensures controllerActive == old(controllerActive)
    {
      currentEvent := event;
      stopped := false;
      var j := 0;
      while j < |lines|
        invariant 0 <= j <= |lines|
        invariant controllerActive == old(controllerActive)
        invariant HandleLines(LineState(state, currentEvent, false), lines[j..], parse, pretty)
          == HandleLines(LineState(old(state), event, false), lines, parse, pretty)
      {
        assert lines[j..][1..] == lines[j + 1..];
        var line := lines[j];
        if StartsWith(line, "event: ") {
          currentEvent := JsTrim(line[7..]);
        } else if StartsWith(line, "data: ") {
          var dataStr := JsTrim(line[6..]);
          if currentEvent == "done" {
            state := state.(isStreaming := false);
            stopped := true;
            return;
          }
          state := ApplyData(state, currentEvent, parse(dataStr), pretty);
        }
        j := j + 1;
      }
    }
  }

  // ----- the buffer -----

  /**
   * After each chunk, the complete lines rejoined with their line breaks and
   * followed by the new buffer are exactly the old buffer and the chunk, and
   * the buffer holds no line break.
   */
  lemma ChunkStep(buffer: string, chunk: string)
    ensures var (lines, rest) := CompleteLines(buffer, chunk);
      '\n' !in rest
      && (forall i :: 0 <= i < |lines| ==> '\n' !in lines[i])
      && (|lines| > 0 ==> Join(lines, "\n") + "\n" + rest == buffer + chunk)
      && (|lines| == 0 ==> rest == buffer + chunk)
  {
    var parts := Split(buffer + chunk, '\n');
    var lines := parts[..|parts| - 1];
    if |lines| > 0 {
      assert parts == lines + [parts[|parts| - 1]];
      JoinAppend(lines, [parts[|parts| - 1]], "\n");
    }
  }

  function ConcatChunks(chunks: seq<string>): string {
    if |chunks| == 0 then "" else chunks[0] + ConcatChunks(chunks[1..])
  }

  function AllButLast(xs: seq<string>): seq<string>
    requires |xs| >= 1
  {
    xs[..|xs| - 1]
  }

  lemma {:induction false} HandleLinesAppend(ls: LineState, a: seq<string>, b: seq<string>, parse: string -> Option<Json>, pretty: Json -> string)
    ensures HandleLines(ls, a + b, parse, pretty) == HandleLines(HandleLines(ls, a, parse, pretty), b, parse, pretty)
    decreases |a|
  {
    if |a| == 0 {
      assert a + b == b;
    } else if ls.stopped {
    } else {
      assert (a + b)[1..] == a[1..] + b;
      HandleLinesAppend(HandleLine(ls, a[0], parse, pretty), a[1..], b, parse, pretty);
    }
  }

  /** Splitting text after complete lines: the lines, then the split of the rest. */
  lemma SplitAfterLines(lines: seq<string>, rest: string, more: string)
    requires |lines| > 0 && forall i :: 0 <= i < |lines| ==> '\n' !in lines[i]
    ensures Split(Join(lines, "\n") + "\n" + (rest + more), '\n') == lines + Split(rest + more, '\n')
  {
    SplitAround(Join(lines, "\n"), rest + more, '\n');
    SplitJoin(lines, '\n');
  }

  /** The complete lines of a chunk come first among the complete lines of everything read from it on. */
  lemma LinesThenRest(buffer: string, chunk: string, more: string)
    ensures var (lines, rest) := CompleteLines(buffer, chunk);
      AllButLast(Split(buffer + chunk + more, '\n')) == lines + AllButLast(Split(rest + more, '\n'))
  {
    var x := buffer + chunk;
    var parts := Split(x, '\n');
    LastSplit(parts);
    LinesThenRestAt(x, parts[..|parts| - 1], parts[|parts| - 1], more);
  }

  lemma LastSplit(parts: seq<string>)
    requires |parts| >= 1
    ensures parts == parts[..|parts| - 1] + [parts[|parts| - 1]]
  {
  }

  lemma LineBreakAssoc(x: string, a: string, b: string, c: string)
    requires x == a + "\n" + b
    ensures x + c == a + "\n" + (b + c)
  {
  }

  lemma AllButLastAppend(a: seq<string>, b: seq<string>)
    requires |b| >= 1
    ensures AllButLast(a + b) == a + AllButLast(b)
  {
  }

  lemma LinesThenRestAt(x: string, lines: seq<string>, rest: string, more: string)
    requires Split(x, '\n') == lines + [rest]
    ensures AllButLast(Split(x + more, '\n')) == lines + AllButLast(Split(rest + more, '\n'))
  {
    var tail := Split(rest + more, '\n');
    if |lines| > 0 {
      var joined := Join(lines, "\n");
      assert forall i :: 0 <= i < |lines| ==> '\n' !in lines[i] by {
        assert forall i :: 0 <= i < |lines| ==> lines[i] == Split(x, '\n')[i];
      }
      assert x == joined + "\n" + rest by {
        JoinAppend(lines, [rest], "\n");
      }
      assert Split(x + more, '\n') == lines + tail by {
        LineBreakAssoc(x, joined, rest, more);
        SplitAfterLines(lines, rest, more);
      }
      AllButLastAppend(lines, tail);
    } else {
      assert x == rest by {
        assert Join(Split(x, '\n'), "\n") == x;
      }
    }
  }

  /** The complete lines the read loop hands on, chunk after chunk. */
  function LinesRead(buffer: string, chunks: seq<string>): seq<string>
    decreases |chunks|
  {
    if |chunks| == 0 then []
    else
      var (lines, rest) := CompleteLines(buffer, chunks[0]);
      lines + LinesRead(rest, chunks[1..])
  }

  /** The read loop handles exactly the lines it has read, in order. */
  lemma {:induction false} ReadChunksLines(ls: LineState, buffer: string, chunks: seq<string>, parse: string -> Option<Json>, pretty: Json -> string)
    ensures ReadChunks(ls, buffer, chunks, parse, pretty) == HandleLines(ls, LinesRead(buffer, chunks), parse, pretty)
    decreases |chunks|
  {
    if |chunks| == 0 {
    } else {
      var cl := CompleteLines(buffer, chunks[0]);
      var next := HandleLines(ls, cl.0, parse, pretty);
      ReadChunksLines(next, cl.1, chunks[1..], parse, pretty);
      HandleLinesAppend(ls, cl.0, LinesRead(cl.1, chunks[1..]), parse, pretty);
    }
  }

  /** The lines read are the complete lines of the buffer followed by all the chunks. */
  lemma {:induction false} LinesReadSplit(buffer: string, chunks: seq<string>)
    requires '\n' !in buffer
    ensures LinesRead(buffer, chunks) == AllButLast(Split(buffer + ConcatChunks(chunks), '\n'))
    decreases |chunks|
  {
    if |chunks| == 0 {
      assert buffer + ConcatChunks(chunks) == buffer;
      SplitNoSep(buffer, '\n');
    } else {
      var cl := CompleteLines(buffer, chunks[0]);
      var more := ConcatChunks(chunks[1..]);
      assert '\n' !in cl.1 by { ChunkStep(buffer, chunks[0]); }
      LinesReadSplit(cl.1, chunks[1..]);
      assert buffer + ConcatChunks(chunks) == buffer + chunks[0] + more;
      LinesThenRest(buffer, chunks[0], more);
    }
  }

  /**
   * The line handler sees the same lines however the text is cut into
   * chunks: exactly the complete lines of the whole text, in order.
   */
  lemma ChunkingIrrelevant(ls: LineState, buffer: string, chunks: seq<string>, parse: string -> Option<Json>, pretty: Json -> string)
    requires '\n' !in buffer
    ensures ReadChunks(ls, buffer, chunks, parse, pretty)
      == HandleLines(ls, AllButLast(Split(buffer + ConcatChunks(chunks), '\n')), parse, pretty)
  {
    ReadChunksLines(ls, buffer, chunks, parse, pretty);
    LinesReadSplit(buffer, chunks);
  }

  /** So the whole stream is handled as the complete lines of the concatenated text. */
  lemma StreamedLines(ls: LineState, chunks: seq<string>, parse: string -> Option<Json>, pretty: Json -> string)
    ensures ReadChunks(ls, "", chunks, parse, pretty)
      == HandleLines(ls, AllButLast(Split(ConcatChunks(chunks), '\n')), parse, pretty)
  {
    ChunkingIrrelevant(ls, "", chunks, parse, pretty);
    assert "" + ConcatChunks(chunks) == ConcatChunks(chunks);
  }

  // ----- the line handler -----

  /** An `event:` line only sets the current event type, to the trimmed rest of the line. */
  lemma EventLine(ls: LineState, name: string, parse: string -> Option<Json>, pretty: Json -> string)
    ensures HandleLine(ls, "event: " + name, parse, pretty) == ls.(currentEvent := JsTrim(name))
  {
    var line := "event: " + name;
    assert line[..7] == "event: " && line[7..] == name;
  }

  /** Any line other than an `event:` line keeps the current event type. */
  lemma EventPersists(ls: LineState, line: string, parse: string -> Option<Json>, pretty: Json -> string)
    requires !StartsWith(line, "event: ")
    ensures HandleLine(ls, line, parse, pretty).currentEvent == ls.currentEvent
  {
  }

  /** A `data:` line under `done` ends streaming and stops all further processing, whatever follows. */
  lemma DoneStops(ls: LineState, payload: string, rest: seq<string>, parse: string -> Option<Json>, pretty: Json -> string)
    requires !ls.stopped && ls.currentEvent == "done"
    ensures HandleLines(ls, ["data: " + payload] + rest, parse, pretty) == LineState(ls.st.(isStreaming := false), "done", true)
  {
    var line := "data: " + payload;
    assert line[..6] == "data: ";
    assert !StartsWith(line, "event: ") by { assert line[5] == ' ' && "event: "[5] == ':'; }
    assert (["data: " + payload] + rest)[1..] == rest;
  }

  /** Lines that are neither `event:` nor `data:` lines, such as the heartbeat comment and blank lines, change nothing. */
  lemma OtherLinesIgnored(ls: LineState, line: string, parse: string -> Option<Json>, pretty: Json -> string)
    requires !StartsWith(line, "event: ") && !StartsWith(line, "data: ")
    ensures HandleLine(ls, line, parse, pretty) == ls
  {
  }

  /** `reading_chunk` shows the summary, else the content, else the whole payload's JSON text. */
  lemma ReadingChunk(st: StreamState, data: Json, pretty: Json -> string)
    requires data != JNull
    ensures var r := ApplyData(st, "reading_chunk", Some(data), pretty);
      r == st.(readingContent := r.readingContent)
      && (Member(data, "summary").Some? && Truthy(Member(data, "summary").value) ==>
            r.readingContent == Member(data, "summary").value)
      && (!(Member(data, "summary").Some? && Truthy(Member(data, "summary").value))
            && Member(data, "content").Some? && Truthy(Member(data, "content").value) ==>
            r.readingContent == Member(data, "content").value)
      && (!(Member(data, "summary").Some? && Truthy(Member(data, "summary").value))
            && !(Member(data, "content").Some? && Truthy(Member(data, "content").value)) ==>
            r.readingContent == JStr(pretty(data)))
  {
  }

  /** `grammar_chunk` shows the analysis, else the content, else the whole payload's JSON text. */
  lemma GrammarChunk(st: StreamState, data: Json, pretty: Json -> string)
    requires data != JNull
    ensures var r := ApplyData(st, "grammar_chunk", Some(data), pretty);
      r == st.(grammarContent := r.grammarContent)
      && (Member(data, "analysis").Some? && Truthy(Member(data, "analysis").value) ==>
            r.grammarContent == Member(data, "analysis").value)
      && (!(Member(data, "analysis").Some? && Truthy(Member(data, "analysis").value))
            && Member(data, "content").Some? && Truthy(Member(data, "content").value) ==>
            r.grammarContent == Member(data, "content").value)
      && (!(Member(data, "analysis").Some? && Truthy(Member(data, "analysis").value))
            && !(Member(data, "content").Some? && Truthy(Member(data, "content").value)) ==>
            r.grammarContent == JStr(pretty(data)))
  {
  }

  /** Malformed JSON, a `null` payload and event types the handler does not know leave the state unchanged. */
  lemma UnchangedData(st: StreamState, event: string, parsed: Option<Json>, pretty: Json -> string)
    requires parsed.None? || parsed == Some(JNull)
      || (event != "reading_chunk" && event != "grammar_chunk" && event != "vocabulary_chunk")
    ensures ApplyData(st, event, parsed, pretty) == st
  {
  }

  /**
   * The server streams `reading_token`, `grammar_token` and `*_done` events,
   * none of which the handler knows: they never reach the displayed contents.
   */
  lemma TokenEventsIgnored(st: StreamState, parsed: Option<Json>, pretty: Json -> string)
    ensures ApplyData(st, "reading_token", parsed, pretty) == st
    ensures ApplyData(st, "grammar_token", parsed, pretty) == st
    ensures ApplyData(st, "reading_done", parsed, pretty) == st
    ensures ApplyData(st, "vocabulary_done", parsed, pretty) == st
  {
  }

  /** `startStream` first clears the three contents and the error and sets streaming; `reset` returns to the initial state. */
  lemma StartClears(st: StreamState)
    ensures Started(st).readingContent == JStr("") && Started(st).grammarContent == JStr("")
    ensures Started(st).vocabularyContent == "" && Started(st).error.None? && Started(st).isStreaming
    ensures Started(st) == Initial.(isStreaming := true)
  {
  }

  /** A rejected fetch with an `AbortError` leaves the hook streaming, with no error to show. */
  lemma AbortLeavesStreaming(st: StreamState, message: string, parse: string -> Option<Json>, pretty: Json -> string)
    ensures StreamOutcome(st, FetchFailed(JsError("AbortError", message)), parse, pretty) == Initial.(isStreaming := true)
  {
  }

  /** A response without a body ends streaming with the "not readable" error. */
  lemma NoBodyError(st: StreamState, parse: string -> Option<Json>, pretty: Json -> string)
    ensures StreamOutcome(st, NoBody, parse, pretty)
      == Initial.(error := Some(ErrorValue("Error", "Response body is not readable")))
  {
  }

  // ----- the vocabulary formatter's properties -----

  /**
   * A missing or falsy word list gives "", and so does one whose `length` is
   * the number 0: an empty array or an object with a `length` member of 0.
   */
  lemma NoWordsEmpty(data: Json)
    requires data != JNull
    requires Member(data, "words").None? || !Truthy(Member(data, "words").value) || Member(data, "words") == Some(JArr([]))
      || (Member(data, "words").Some? && Member(Member(data, "words").value, "length") == Some(JInt(0)))
    ensures FormatVocabularyData(data) == Some("")
  {
  }

  /**
   * A truthy word list that is not an array, and whose `length` is not the
   * number 0, has no `map` and throws, so the displayed vocabulary is left as
   * it was.
   */
  lemma NonArrayWordsThrow(data: Json)
    requires Member(data, "words").Some? && Truthy(Member(data, "words").value) && !Member(data, "words").value.JArr?
    requires Member(Member(data, "words").value, "length") != Some(JInt(0))
    ensures FormatVocabularyData(data).None?
  {
  }

  lemma HeadStarts(s: string, head: string, body: string)
    requires s == head + body
    ensures StartsWith(s, head)
  {
    assert s[..|head|] == head;
  }

  /** Each entry carries its number, from `first` on. */
  lemma {:induction false} EntriesNumbered(ws: seq<Json>, first: nat)
    requires EntryTexts(ws, first).Some?
    ensures forall i :: 0 <= i < |ws| ==> StartsWith(EntryTexts(ws, first).value[i], EntryHead(first + i))
    decreases |ws|
  {
    if |ws| > 0 {
      var e := EntryText(ws[0], first).value;
      var rest := EntryTexts(ws[1..], first + 1).value;
      assert EntryTexts(ws, first).value == [e] + rest;
      EntriesNumbered(ws[1..], first + 1);
      EntryNumbered(ws[0], first);
      HeadsThenRest(e, rest, EntryTexts(ws, first).value, first);
    }
  }

  lemma HeadsThenRest(e: string, rest: seq<string>, es: seq<string>, first: nat)
    requires es == [e] + rest && StartsWith(e, EntryHead(first))
    requires forall i :: 0 <= i < |rest| ==> StartsWith(rest[i], EntryHead(first + 1 + i))
    ensures forall i :: 0 <= i < |es| ==> StartsWith(es[i], EntryHead(first + i))
  {
    forall i | 0 <= i < |es|
      ensures StartsWith(es[i], EntryHead(first + i))
    {
      if i > 0 {
        assert es[i] == rest[i - 1];
        assert first + 1 + (i - 1) == first + i;
      }
    }
  }

  lemma EntryNumbered(w: Json, number: nat)
    requires EntryText(w, number).Some?
    ensures StartsWith(EntryText(w, number).value, EntryHead(number))
  {
    var synonyms := SynonymText(Member(w, "synonyms"));
    HeadStarts(EntryText(w, number).value, EntryHead(number), EntryBody(OrText(Member(w, "term"), "Unknown"),
      OrText(Member(w, "meaning"), "N/A"), OrText(Member(w, "usage"), "N/A"), if synonyms.value == "" then "N/A" else synonyms.value));
  }

  /**
   * A non-empty list of `n` words gives `n` entries numbered 1 to `n`,
   * separated by blank lines.
   */
  lemma WordsNumbered(data: Json)
    requires FormatVocabularyData(data).Some?
    requires Member(data, "words").Some? && Member(data, "words").value.JArr? && |Member(data, "words").value.items| > 0
    ensures var ws := Member(data, "words").value.items;
      EntryTexts(ws, 1).Some?
      && FormatVocabularyData(data) == Some(Join(EntryTexts(ws, 1).value, "\n\n"))
      && |EntryTexts(ws, 1).value| == |ws|
      && forall i :: 0 <= i < |ws| ==> StartsWith(EntryTexts(ws, 1).value[i], EntryHead(i + 1))
  {
    EntriesNumbered(Member(data, "words").value.items, 1);
  }

  /** At most three synonyms are shown: what follows the third never matters. */
  lemma ThreeSynonyms(xs: seq<Json>)
    requires |xs| > 3
    ensures SynonymText(Some(JArr(xs))) == SynonymText(Some(JArr(xs[..3])))
  {
    assert xs[..3][..3] == xs[..3];
  }

  /** The entry the formatter writes for a word without any of the fields it reads. */
  function UnknownEntry(number: nat): string {
    EntryHead(number) + EntryBody("Unknown", "N/A", "N/A", "N/A")
  }

  /** The unknown entries numbered from `first` on. */
  function UnknownEntries(first: nat, n: nat): (r: seq<string>)
    ensures |r| == n
    decreases n
  {
    if n == 0 then [] else [UnknownEntry(first)] + UnknownEntries(first + 1, n - 1)
  }

  /** A word object without `term`, `meaning`, `usage` or `synonyms` is the unknown entry. */
  lemma UnknownFields(w: Json, number: nat)
    requires w != JNull
    requires Member(w, "term").None? && Member(w, "meaning").None? && Member(w, "usage").None? && Member(w, "synonyms").None?
    ensures EntryText(w, number) == Some(UnknownEntry(number))
  {
  }

  /** The server's word objects have only `word` and `content`. */
  lemma ServerEntryFields(e: Schemas.VocabularyWordEntry)
    ensures var w := Schemas.WordEntryJson(e);
      w != JNull && Member(w, "term").None? && Member(w, "meaning").None? && Member(w, "usage").None? && Member(w, "synonyms").None?
  {
    var fields := [Field("word", JStr(e.word)), Field("content", JStr(e.content))];
    assert Schemas.WordEntryJson(e) == JObj(fields);
    assert fields[..1] == [fields[0]];
  }

  lemma {:induction false} ServerEntriesUnknown(ws: seq<Schemas.VocabularyWordEntry>, first: nat)
    ensures EntryTexts(Schemas.WordEntriesJson(ws), first) == Some(UnknownEntries(first, |ws|))
    decreases |ws|
  {
    if |ws| > 0 {
      var j := Schemas.WordEntriesJson(ws);
      assert j[1..] == Schemas.WordEntriesJson(ws[1..]);
      ServerEntryFields(ws[0]);
      UnknownFields(j[0], first);
      ServerEntriesUnknown(ws[1..], first + 1);
    }
  }

  /**
   * The server's vocabulary payload is `{"words": [{"word", "content"}]}`,
   * while the formatter reads `term`, `meaning`, `usage` and `synonyms`: every
   * word the server sends is shown as "Unknown" with every field "N/A".
   */
  lemma ServerVocabularyShownUnknown(v: Schemas.VocabularyResult)
    requires |v.words| > 0
    ensures FormatVocabularyData(JObj(Schemas.VocabularyResultFields(v)))
      == Some(Join(UnknownEntries(1, |v.words|), "\n\n"))
  {
    ServerEntriesUnknown(v.words, 1);
  }
}
