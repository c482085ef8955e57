/**
 * The client's request helpers. `streamAnalysis` reads a streamed response
 * chunk by chunk, splits each chunk into lines on its own and yields the
 * remainder of every `data: ` line until a `[DONE]` payload. `analyzeText`,
 * `analyzeImage` and `sendChat` turn a non-ok response into an `ApiError`
 * whose message comes from the error body or from a per-request fallback.
 * Text decoding is done before the model: chunks are strings.
 */
module Api {
  import opened Wrappers
  import opened Text
  import opened Json
  import Streaming
  import TutorStream

  const DataPrefix: string := "data: "
  const DoneMarker: string := "[DONE]"
  const UnreadableBody: string := "Response body is not readable"

  /**
   * The yield of a sequence of lines: the remainders of the `data: ` lines in
   * order, stopping at (and dropping) the first remainder equal to `[DONE]`;
   * the flag records whether that marker was met. `DataLineYields`,
   * `OtherLinesSilent`, `DoneEndsLines` and `YieldedAreDataPayloads` state
   * what it yields.
   */
  function DataLines(lines: seq<string>): (r: (seq<string>, bool))
    ensures |r.0| <= |lines|
  {
    if |lines| == 0 then ([], false)
    else if StartsWith(lines[0], DataPrefix) then
      var d := lines[0][|DataPrefix|..];
      if d == DoneMarker then ([], true)
      else
        var rest := DataLines(lines[1..]);
        ([d] + rest.0, rest.1)
    else DataLines(lines[1..])
  }

  /** The yield of a sequence of chunks, each split on `\n` by itself; nothing after `[DONE]` is read. */
  function ChunksData(chunks: seq<string>): (r: (seq<string>, bool))
    ensures forall k :: 0 <= k < |r.0| ==> r.0[k] != DoneMarker
  {
    if |chunks| == 0 then ([], false)
    else
      YieldedAreDataPayloads(Split(chunks[0], '\n'));
      var first := DataLines(Split(chunks[0], '\n'));
      if first.1 then first
      else
        var rest := ChunksData(chunks[1..]);
        (first.0 + rest.0, rest.1)
  }

  /**
   * What the generator yields and what it finally throws. A rejected fetch
   * and a missing body throw before anything is yielded; a read that fails
   * after the last chunk throws unless `[DONE]` already ended the stream.
   */
  function StreamOutcome(response: TutorStream.Response): (r: (seq<string>, Option<TutorStream.Thrown>))
    ensures !response.Body? ==> r.0 == [] && r.1.Some?
    ensures response.Body? && ChunksData(response.chunks).1 ==> r.1.None?
    ensures forall k :: 0 <= k < |r.0| ==> r.0[k] != DoneMarker
  {
    match response
    case FetchFailed(t) => ([], Some(t))
    case NoBody => ([], Some(TutorStream.JsError("Error", UnreadableBody)))
    case Body(chunks, failure) =>
      var r := ChunksData(chunks);
      (r.0, if r.1 then None else failure)
  }

  /**
   * `streamAnalysis(fetchPromise)`: the read loop with its inner line loop and
   * early return. `released` is the `finally` that releases the reader's lock,
   * which runs exactly when a reader was obtained.
   */
  method StreamAnalysis(response: TutorStream.Response)
    returns (yielded: seq<string>, error: Option<TutorStream.Thrown>, released: bool)
    ensures (yielded, error) == StreamOutcome(response)
    ensures released <==> response.Body?
  {
    yielded := [];
    released := false;
    if response.FetchFailed? {
      error := Some(response.thrown);
      return;
    }
    if response.NoBody? {
      error := Some(TutorStream.JsError("Error", UnreadableBody));
      return;
    }
    var chunks := response.chunks;
    ghost var total := ChunksData(chunks);
    var i := 0;
    assert chunks[0..] == chunks && [] + total.0 == total.0;
    while i < |chunks|
      invariant 0 <= i <= |chunks|
      invariant total == (yielded + ChunksData(chunks[i..]).0, ChunksData(chunks[i..]).1)
    {
      var out, ended := ChunkData(chunks[i]);
      assert ChunksData(chunks[i..]) ==
        (if ended then (out, ended)
         else (out + ChunksData(chunks[i + 1..]).0, ChunksData(chunks[i + 1..]).1)) by {
        assert chunks[i..][0] == chunks[i] && chunks[i..][1..] == chunks[i + 1..];
      }
      ConcatAssoc(yielded, out, ChunksData(chunks[i + 1..]).0);
      yielded := yielded + out;
      if ended {
        error := None;
        released := true;
        return;
      }
      i := i + 1;
    }
    assert ChunksData(chunks[i..]) == ([], false);
    assert yielded + [] == yielded;
    error := response.failure;
    released := true;
  }

  /** The inner loop over one chunk's lines; `ended` is the early `return` on `[DONE]`. */
  method ChunkData(chunk: string) returns (out: seq<string>, ended: bool)
    ensures (out, ended) == DataLines(Split(chunk, '\n'))
  {
    var lines := Split(chunk, '\n');
    out := [];
    var j := 0;
    assert lines[0..] == lines && [] + DataLines(lines).0 == DataLines(lines).0;
    while j < |lines|
      invariant 0 <= j <= |lines|
      invariant DataLines(lines) == (out + DataLines(lines[j..]).0, DataLines(lines[j..]).1)
    {
      assert lines[j..][0] == lines[j] && lines[j..][1..] == lines[j + 1..];
      var line := lines[j];
      if StartsWith(line, DataPrefix) {
        var data := line[|DataPrefix|..];
        if data == DoneMarker {
          assert out + [] == out;
          return out, true;
        }
        DataLinesStep(out, data, DataLines(lines[j + 1..]).0);
        out := out + [data];
      }
      j := j + 1;
    }
    assert DataLines(lines[j..]) == ([], false);
    assert out + [] == out;
    ended := false;
  }

  lemma DataLinesStep(acc: seq<string>, d: string, rest: seq<string>)
    ensures acc + ([d] + rest) == (acc + [d]) + rest
  {
  }

  lemma ConcatAssoc(a: seq<string>, b: seq<string>, c: seq<string>)
    ensures a + (b + c) == (a + b) + c
  {
  }

  /** Lines that do not start with `data: ` yield nothing and cannot end the stream. */
  lemma OtherLinesSilent(line: string, rest: seq<string>)
    requires !StartsWith(line, DataPrefix)
    ensures DataLines([line] + rest) == DataLines(rest)
  {
    assert ([line] + rest)[1..] == rest;
  }

  /** A `data: ` line yields its remainder in front of what the following lines yield. */
  lemma DataLineYields(payload: string, rest: seq<string>)
    requires payload != DoneMarker
    ensures DataLines([DataPrefix + payload] + rest) == ([payload] + DataLines(rest).0, DataLines(rest).1)
  {
    var line := DataPrefix + payload;
    assert line[..|DataPrefix|] == DataPrefix && line[|DataPrefix|..] == payload;
    assert ([line] + rest)[1..] == rest;
  }

  /** `[DONE]` ends the stream: it is not yielded and no later line is looked at. */
  lemma DoneEndsLines(rest: seq<string>)
    ensures DataLines([DataPrefix + DoneMarker] + rest) == ([], true)
  {
    var line := DataPrefix + DoneMarker;
    assert line[..|DataPrefix|] == DataPrefix && line[|DataPrefix|..] == DoneMarker;
  }

  /** Once `[DONE]` has been read, further chunks change nothing. */
  lemma {:induction false} DoneIgnoresLaterChunks(chunks: seq<string>, more: seq<string>)
    requires ChunksData(chunks).1
    ensures ChunksData(chunks + more) == ChunksData(chunks)
  {
    assert |chunks| > 0;
    assert (chunks + more)[0] == chunks[0];
    if !DataLines(Split(chunks[0], '\n')).1 {
      assert (chunks + more)[1..] == chunks[1..] + more;
      DoneIgnoresLaterChunks(chunks[1..], more);
    }
  }

  /** The payload of every data line of the yield was a `data: ` line, and none is `[DONE]`. */
  lemma {:induction false} YieldedAreDataPayloads(lines: seq<string>)
    ensures forall k :: 0 <= k < |DataLines(lines).0| ==>
      DataLines(lines).0[k] != DoneMarker && DataPrefix + DataLines(lines).0[k] in lines
  {
    if |lines| > 0 {
      YieldedAreDataPayloads(lines[1..]);
      var r := DataLines(lines);
      if StartsWith(lines[0], DataPrefix) && lines[0][|DataPrefix|..] != DoneMarker {
        assert DataPrefix + lines[0][|DataPrefix|..] == lines[0];
        forall k | 0 <= k < |r.0|
          ensures r.0[k] != DoneMarker && DataPrefix + r.0[k] in lines
        {
          if k > 0 {
            assert r.0[k] == DataLines(lines[1..]).0[k - 1];
            assert DataPrefix + r.0[k] in lines[1..];
          }
        }
      } else if !StartsWith(lines[0], DataPrefix) {
        forall k | 0 <= k < |r.0|
          ensures r.0[k] != DoneMarker && DataPrefix + r.0[k] in lines
        {
          assert DataPrefix + r.0[k] in lines[1..];
        }
      }
    }
  }

  /**
   * A whole server-sent event frame in one chunk yields exactly its payload:
   * the `event: ` line and the blank lines around it yield nothing.
   */
  lemma FrameYieldsPayload(eventType: string, payload: string)
    requires Streaming.NoLineBreak(eventType) && Streaming.NoLineBreak(payload)
    requires payload != DoneMarker
    ensures ChunksData([Streaming.Frame(eventType, payload)]) == ([payload], false)
  {
    var head := "event: " + eventType;
    var data := DataPrefix + payload;
    assert '\n' !in head && '\n' !in data by {
      assert forall k :: 0 <= k < |head| ==> head[k] != '\n' by {
        forall k | 0 <= k < |head| ensures head[k] != '\n' {
          if k >= 7 { assert head[k] == eventType[k - 7]; }
        }
      }
      assert forall k :: 0 <= k < |data| ==> data[k] != '\n' by {
        forall k | 0 <= k < |data| ensures data[k] != '\n' {
          if k >= 6 { assert data[k] == payload[k - 6]; }
        }
      }
    }
    var lines := [head, data, "", ""];
    FrameLines(eventType, payload, head, data);
    assert Split(Streaming.Frame(eventType, payload), '\n') == lines;
    assert !StartsWith(head, DataPrefix) by {
      assert head[..|DataPrefix|] != DataPrefix by { assert head[0] == 'e'; }
    }
    OtherLinesSilent(head, lines[1..]);
    assert lines == [head] + lines[1..];
    assert lines[1..] == [data] + ["", ""];
    DataLineYields(payload, ["", ""]);
    assert lines[1..][1..] == ["", ""];
    assert DataLines(["", ""]) == ([], false) by {
      assert ["", ""][1..] == [""];
      assert [""][1..] == [];
    }
    assert [payload] + [] == [payload];
    SingleChunk(Streaming.Frame(eventType, payload));
  }

  lemma FrameLines(eventType: string, payload: string, head: string, data: string)
    requires head == "event: " + eventType && data == DataPrefix + payload
    requires '\n' !in head && '\n' !in data
    ensures Split(Streaming.Frame(eventType, payload), '\n') == [head, data, "", ""]
  {
    var tail := data + "\n" + "\n";
    FrameShape(eventType, payload, head, data, tail);
    SplitLeading(head, tail, Streaming.Frame(eventType, payload));
    SplitLeading(data, "\n", tail);
    SplitLeading("", "", "\n");
    SplitNoSep("", '\n');
  }

  lemma FrameShape(eventType: string, payload: string, head: string, data: string, tail: string)
    requires head == "event: " + eventType && data == DataPrefix + payload && tail == data + "\n" + "\n"
    ensures Streaming.Frame(eventType, payload) == head + "\n" + tail
  {
  }

  /** Splitting at the first line break. */
  lemma SplitLeading(line: string, rest: string, s: string)
    requires '\n' !in line && s == line + "\n" + rest
    ensures Split(s, '\n') == [line] + Split(rest, '\n')
  {
    assert s == line + ['\n'] + rest;
    SplitAround(line, rest, '\n');
    SplitNoSep(line, '\n');
  }

  /** A line ended by a line break splits into the line and an empty rest. */
  lemma SplitTerminated(line: string, s: string)
    requires '\n' !in line && s == line + "\n"
    ensures Split(s, '\n') == [line, ""]
  {
    assert s == line + ['\n'] + "";
    SplitAround(line, "", '\n');
    SplitNoSep(line, '\n');
  }

  /** The yield of one chunk followed by chunks that yield nothing. */
  lemma SingleChunk(c: string)
    ensures ChunksData([c]) == DataLines(Split(c, '\n'))
  {
    assert [c][0] == c && [c][1..] == [];
    assert ChunksData([]) == ([], false);
    assert DataLines(Split(c, '\n')).0 + [] == DataLines(Split(c, '\n')).0;
  }

  /**
   * Each chunk is split on its own: a data line broken across two chunks is
   * lost, while the same text in one chunk is yielded.
   */
  lemma BrokenLineLost(payload: string)
    requires Streaming.NoLineBreak(payload) && payload != DoneMarker
    ensures ChunksData(["da", "ta: " + payload + "\n"]) == ([], false)
    ensures ChunksData(["data: " + payload + "\n"]) == ([payload], false)
  {
    var tail := "ta: " + payload;
    var line := DataPrefix + payload;
    NoBreakPrefixed("ta: ", payload, tail);
    NoBreakPrefixed(DataPrefix, payload, line);
    SplitNoSep("da", '\n');
    SplitTerminated(tail, "ta: " + payload + "\n");
    SplitTerminated(line, "data: " + payload + "\n");
    assert !StartsWith("da", DataPrefix);
    assert !StartsWith(tail, DataPrefix) by { assert tail[0] == 't'; }
    assert StartsWith("", DataPrefix) == false;
    OtherLinesSilent("da", []);
    assert DataLines(["da"]) == ([], false) by { assert ["da"] == ["da"] + []; }
    OtherLinesSilent("", []);
    OtherLinesSilent(tail, [""]);
    assert DataLines([tail, ""]) == ([], false) by { assert [tail, ""] == [tail] + [""]; assert [""] == [""] + []; }
    var two := ["da", "ta: " + payload + "\n"];
    assert two[0] == "da" && two[1..] == ["ta: " + payload + "\n"];
    SingleChunk("ta: " + payload + "\n");
    DataLineYields(payload, [""]);
    assert DataLines([""]) == ([], false) by { assert [""] == [""] + []; }
    assert [line, ""] == [line] + [""];
    assert [payload] + [] == [payload];
    SingleChunk("data: " + payload + "\n");
  }

  lemma NoBreakPrefixed(prefix: string, payload: string, s: string)
    requires '\n' !in prefix && Streaming.NoLineBreak(payload) && s == prefix + payload
    ensures '\n' !in s
  {
    forall k | 0 <= k < |s| ensures s[k] != '\n' {
      if k < |prefix| { assert s[k] == prefix[k]; } else { assert s[k] == payload[k - |prefix|]; }
    }
  }

  /** A reply as the request helpers see it; `body` is `None` when `response.json()` rejects. */
  datatype Reply = Reply(ok: bool, status: int, body: Option<Json>)

  /** `new ApiError(status, message, code)`; its `name` is always "ApiError". */
  datatype ApiError = ApiError(status: int, message: Json, code: Option<Json>) {
    const name: string := "ApiError"
  }

  /**
   * How a request helper settles: the parsed body, an `ApiError`, a
   * `TypeError` from reading `message` of a `null` error body, or the
   * rejection of `response.json()` on an ok reply whose body is not JSON.
   */
  datatype RequestOutcome =
    | Succeeded(value: Json)
    | Failed(error: ApiError)
    | NullErrorBody
    | InvalidJson

  /** The error payload: the body, or `{message: "Unknown error"}` when it does not parse. */
  function ErrorData(body: Option<Json>): (r: Json)
    ensures body.Some? ==> r == body.value
    ensures body.None? ==> Member(r, "message") == Some(JStr("Unknown error")) && Member(r, "code") == None
  {
    if body.Some? then body.value else JObj([Field("message", JStr("Unknown error"))])
  }

  /** `errorData.message || fallback`. */
  function ErrorMessage(errorData: Json, fallback: string): (r: Json)
    ensures Member(errorData, "message").Some? && Truthy(Member(errorData, "message").value) ==>
      r == Member(errorData, "message").value
    ensures Member(errorData, "message").None? || !Truthy(Member(errorData, "message").value) ==>
      r == JStr(fallback)
    ensures Truthy(r) || r == JStr(fallback)
  {
    var m := Member(errorData, "message");
    if m.Some? && Truthy(m.value) then m.value else JStr(fallback)
  }

  /** The shared shape of `analyzeText`, `analyzeImage` and `sendChat` once the reply is in. */
  function RequestResult(reply: Reply, fallback: string): (r: RequestOutcome)
    ensures r.Succeeded? <==> reply.ok && reply.body.Some?
    ensures r.Succeeded? ==> r.value == reply.body.value
    ensures r.InvalidJson? <==> reply.ok && reply.body.None?
    ensures r.NullErrorBody? <==> !reply.ok && reply.body == Some(JNull)
    ensures r.Failed? <==> !reply.ok && reply.body != Some(JNull)
    ensures r.Failed? ==> r.error.status == reply.status && r.error.name == "ApiError"
    ensures r.Failed? ==> r.error.message == ErrorMessage(ErrorData(reply.body), fallback)
    ensures r.Failed? ==> r.error.code == Member(ErrorData(reply.body), "code")
  {
    if reply.ok then
      if reply.body.Some? then Succeeded(reply.body.value) else InvalidJson
    else
      var errorData := ErrorData(reply.body);
      if errorData == JNull then NullErrorBody
      else Failed(ApiError(reply.status, ErrorMessage(errorData, fallback), Member(errorData, "code")))
  }

  /**
   * The message an error reply shows: the body's `message` when it is truthy
   * (a body that is not JSON counts as `{message: "Unknown error"}`), and the
   * fallback otherwise.
   */
  predicate ShowsMessage(reply: Reply, message: Json, fallback: string)
    ensures reply.body.None? ==> (ShowsMessage(reply, message, fallback) <==> message == JStr("Unknown error"))
    ensures ShowsMessage(reply, message, fallback) ==> Truthy(message) || message == JStr(fallback)
  {
    var m := Member(ErrorData(reply.body), "message");
    if m.Some? && Truthy(m.value) then message == m.value else message == JStr(fallback)
  }

  /** `analyzeText(text, level)` once the reply is in; the fallback message is "Analysis failed". */
  function AnalyzeText(reply: Reply): (r: RequestOutcome)
    ensures r.Succeeded? <==> reply.ok && reply.body.Some?
    ensures r.Succeeded? ==> r.value == reply.body.value
    ensures !reply.ok && reply.body != Some(JNull) ==> r.Failed? && r.error.status == reply.status
    ensures r.Failed? ==> ShowsMessage(reply, r.error.message, "Analysis failed")
    ensures r.Failed? ==> r.error.code == Member(ErrorData(reply.body), "code")
  {
    RequestResult(reply, "Analysis failed")
  }

  /** `analyzeImage(file, level)` once the reply is in; the fallback message is "Image analysis failed". */
  function AnalyzeImage(reply: Reply): (r: RequestOutcome)
    ensures r.Succeeded? <==> reply.ok && reply.body.Some?
    ensures r.Succeeded? ==> r.value == reply.body.value
    ensures !reply.ok && reply.body != Some(JNull) ==> r.Failed? && r.error.status == reply.status
    ensures r.Failed? ==> ShowsMessage(reply, r.error.message, "Image analysis failed")
    ensures r.Failed? ==> r.error.code == Member(ErrorData(reply.body), "code")
  {
    RequestResult(reply, "Image analysis failed")
  }

  /** `sendChat(sessionId, message, level)` once the reply is in; the fallback message is "Chat request failed". */
  function SendChat(reply: Reply): (r: RequestOutcome)
    ensures r.Succeeded? <==> reply.ok && reply.body.Some?
    ensures r.Succeeded? ==> r.value == reply.body.value
    ensures !reply.ok && reply.body != Some(JNull) ==> r.Failed? && r.error.status == reply.status
    ensures r.Failed? ==> ShowsMessage(reply, r.error.message, "Chat request failed")
    ensures r.Failed? ==> r.error.code == Member(ErrorData(reply.body), "code")
  {
    RequestResult(reply, "Chat request failed")
  }

  /** A body that is not JSON yields "Unknown error", so the fallback is never used for it. */
  lemma UnparsableErrorBody(status: int, fallback: string)
    ensures RequestResult(Reply(false, status, None), fallback)
      == Failed(ApiError(status, JStr("Unknown error"), None))
  {
  }

  /** Any error body with a truthy `message` shows that message and carries its `code`. */
  lemma ServerMessageCarried(status: int, body: Json, message: Json, fallback: string)
    requires body != JNull
    requires Member(body, "message") == Some(message) && Truthy(message)
    ensures RequestResult(Reply(false, status, Some(body)), fallback)
      == Failed(ApiError(status, message, Member(body, "code")))
  {
  }

  /**
   * The server's own error bodies are `{"detail": …}` (an `HTTPException`),
   * which has no `message`: the client always shows the fallback for them.
   */
  lemma DetailBodyShowsFallback(status: int, detail: Json)
    ensures AnalyzeText(Reply(false, status, Some(JObj([Field("detail", detail)]))))
      == Failed(ApiError(status, JStr("Analysis failed"), None))
  {
    var fields := [Field("detail", detail)];
    assert fields[..0] == [];
  }

  /**
   * Any error body whose `message` is missing or falsy (`""`, `0`, `false`,
   * `null`), including a body that is not an object, shows the fallback.
   */
  lemma FalsyMessageFallsBack(status: int, body: Json, fallback: string)
    requires body != JNull
    requires Member(body, "message").None? || !Truthy(Member(body, "message").value)
    ensures RequestResult(Reply(false, status, Some(body)), fallback)
      == Failed(ApiError(status, JStr(fallback), Member(body, "code")))
  {
  }
}
