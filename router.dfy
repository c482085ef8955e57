/**
 * The analysis endpoints' stream: the loop that turns the graph's event
 * stream into server-sent events, and the wrapper around the graph that
 * inserts an idle marker whenever no event arrives within the heartbeat
 * interval. Time and the task scheduler are abstracted: the wrapper sees a
 * sequence of poll outcomes, and the graph's events arrive as values.
 */
module Router {
  import opened Wrappers
  import opened Json
  import opened Schemas
  import opened Streaming
  import Vocabulary

  // ----- the graph's events, as the loop reads them -----

  /**
   * A truthy `chunk` of a model-stream event: a message chunk with a
   * `content` attribute, or another object, which the loop prints with `str`.
   */
  datatype StreamChunk = ContentChunk(content: string) | PlainChunk(printed: string)

  /** `data["output"]` of a node's end event, as far as the loop reads it; a missing key is `None`. */
  datatype NodeOutput = NodeOutput(
    vocabularyError: Option<string>,
    vocabularyResult: Option<VocabularyResult>,
    analyzeResponse: Option<AnalyzeResponse>)

  /** `event["data"]`: its `chunk` (absent or falsy is `None`) and its `output` (absent is empty). */
  datatype EventData = EventData(chunk: Option<StreamChunk>, output: NodeOutput)

  /**
   * One event of `astream_events`: the `event` key (`None` when missing),
   * `metadata.langgraph_node` and `name` (each defaulting to ""), and the
   * `data` key (`None` when missing).
   */
  datatype GraphEvent = GraphEvent(kind: Option<string>, node: string, name: string, data: Option<EventData>)

  const NoOutput := NodeOutput(None, None, None)

  /** The token of a chunk: its content, or its printed form. */
  function TokenText(c: StreamChunk): string {
    match c
    case ContentChunk(content) => content
    case PlainChunk(printed) => printed
  }

  /** The events for the end of the vocabulary node: its error or its non-empty word list, then `vocabulary_done`. */
  function VocabularyEnd(out: NodeOutput): seq<string> {
    (if out.vocabularyError.Some? && out.vocabularyError.value != "" then [FormatVocabularyError(out.vocabularyError.value)]
     else if out.vocabularyResult.Some? && |out.vocabularyResult.value.words| > 0 then
       [FormatVocabularyChunk(VocabularyResultFields(out.vocabularyResult.value))]
     else [])
    + [FormatSectionDone("vocabulary")]
  }

  /** The event for the end of the aggregator: its vocabulary, whenever there is one. */
  function AggregatorEnd(out: NodeOutput): seq<string> {
    if out.analyzeResponse.Some? && out.analyzeResponse.value.vocabulary.Some? then
      [FormatVocabularyChunk(VocabularyResultFields(out.analyzeResponse.value.vocabulary.value))]
    else []
  }

  /** A model-stream event: a non-empty token from the reading or grammar node becomes that section's token event. */
  function ModelStream(ev: GraphEvent): Result<seq<string>, string> {
    if ev.data.None? then Err("'data'")
    else if ev.data.value.chunk.None? then Ok([])
    else
      var token := TokenText(ev.data.value.chunk.value);
      if token == "" then Ok([])
      else if ev.node == "reading" then Ok([FormatReadingToken(token)])
      else if ev.node == "grammar" then Ok([FormatGrammarToken(token)])
      else Ok([])
  }

  /** A node's end event: the section's completion, or what the vocabulary node and the aggregator report. */
  function ChainEnd(name: string, out: NodeOutput): seq<string> {
    if name == "reading" then [FormatSectionDone("reading")]
    else if name == "grammar" then [FormatSectionDone("grammar")]
    else if name == "vocabulary" then VocabularyEnd(out)
    else if name == "aggregator" then AggregatorEnd(out)
    else []
  }

  /**
   * One pass of the loop body of `_stream_graph_events`: the idle marker
   * becomes the heartbeat comment; a graph event becomes zero or more events,
   * or the `KeyError` its missing `event` or `data` key raises, whose text is
   * the quoted key.
   */
  function Translate(e: Option<GraphEvent>): (r: Result<seq<string>, string>)
    ensures e.None? ==> r == Ok([Heartbeat])
    ensures r.Err? <==> e.Some? && (e.value.kind.None? || (e.value.kind == Some("on_chat_model_stream") && e.value.data.None?))
    ensures r.Err? ==> r.error == (if e.value.kind.None? then "'event'" else "'data'")
  {
    if e.None? then Ok([Heartbeat])
    else if e.value.kind.None? then Err("'event'")
    else if e.value.kind.value == "on_chat_model_stream" then ModelStream(e.value)
    else if e.value.kind.value == "on_chain_end" then
      Ok(ChainEnd(e.value.name, if e.value.data.Some? then e.value.data.value.output else NoOutput))
    else Ok([])
  }

  /**
   * Everything `_stream_graph_events` yields for the items its source
   * delivered: the events of each item in turn; after the last, the `done`
   * event unless the stream was cancelled; and at the first exception, one
   * `processing_error` event and nothing more.
   */
  function GraphOutput(items: seq<Option<GraphEvent>>, cancelled: bool, sessionId: string): (r: seq<string>)
    ensures !cancelled ==> |r| > 0
    ensures !cancelled && (forall i :: 0 <= i < |items| ==> Translate(items[i]).Ok?) ==> r[|r| - 1] == FormatDoneEvent(sessionId)
    ensures (exists i :: 0 <= i < |items| && Translate(items[i]).Err?) ==> |r| > 0 && r[|r| - 1] != FormatDoneEvent(sessionId)
  {
    if |items| == 0 then (if cancelled then [] else [FormatDoneEvent(sessionId)])
    else
      match Translate(items[0])
      case Err(m) =>
        ErrorIsNotDone(m, sessionId);
        [FormatErrorEvent(m, "processing_error")]
      case Ok(out) =>
        assert forall i :: 0 < i < |items| ==> items[1..][i - 1] == items[i];
        out + GraphOutput(items[1..], cancelled, sessionId)
  }

  /** The `processing_error` event and the `done` event are different texts: they parse to different event types. */
  lemma ErrorIsNotDone(m: string, sessionId: string)
    ensures FormatErrorEvent(m, "processing_error") != FormatDoneEvent(sessionId)
  {
    var e := FormatErrorEvent(m, "processing_error");
    var d := FormatDoneEvent(sessionId);
    assert ParseStream(e)[0].eventType == "error";
    assert ParseStream(d)[0].eventType == "done";
  }

  /**
   * `_stream_graph_events`: `items` is what the heartbeat wrapper yielded
   * before it stopped, and `cancelled` says whether it stopped because the
   * client went away rather than because the graph ended.
   */
  method StreamGraphEvents(items: seq<Option<GraphEvent>>, cancelled: bool, sessionId: string) returns (out: seq<string>)
    ensures out == GraphOutput(items, cancelled, sessionId)
  {
    out := [];
    var i := 0;
    while i < |items|
      invariant 0 <= i <= |items|
      invariant out + GraphOutput(items[i..], cancelled, sessionId) == GraphOutput(items, cancelled, sessionId)
    {
      var r := Translate(items[i]);
      GraphOutputAt(items, i, cancelled, sessionId);
      if r.Err? {
        out := out + [FormatErrorEvent(r.error, "processing_error")];
        return;
      }
      AppendStep(out, r.value, GraphOutput(items[i..], cancelled, sessionId), GraphOutput(items[i + 1..], cancelled, sessionId),
        GraphOutput(items, cancelled, sessionId));
      out := out + r.value;
      i := i + 1;
    }
    assert items[i..] == [];
    if !cancelled {
      out := out + [FormatDoneEvent(sessionId)];
    }
  }

  lemma AppendStep(out: seq<string>, events: seq<string>, here: seq<string>, later: seq<string>, whole: seq<string>)
    requires out + here == whole && here == events + later
    ensures (out + events) + later == whole
  {
  }

  /** The output from item `i` on: that item's events and the rest, or its error alone. */
  lemma GraphOutputAt(items: seq<Option<GraphEvent>>, i: nat, cancelled: bool, sessionId: string)
    requires i < |items|
    ensures Translate(items[i]).Err? ==> GraphOutput(items[i..], cancelled, sessionId) == [FormatErrorEvent(Translate(items[i]).error, "processing_error")]
    ensures Translate(items[i]).Ok? ==> GraphOutput(items[i..], cancelled, sessionId) == Translate(items[i]).value + GraphOutput(items[i + 1..], cancelled, sessionId)
  {
    assert items[i..][0] == items[i];
    assert items[i..][1..] == items[i + 1..];
  }

  // ----- what a client sees -----

  /** The type of the one event a piece of output dispatches, if it dispatches exactly one. */
  function EventKind(s: string): Option<string> {
    var evs := ParseStream(s);
    if |evs| == 1 then Some(evs[0].eventType) else None
  }

  /** Output that is neither the `done` event nor an `error` event. */
  predicate Ordinary(s: string) {
    EventKind(s) != Some("done") && EventKind(s) != Some("error")
  }

  lemma DoneKind(sessionId: string)
    ensures EventKind(FormatDoneEvent(sessionId)) == Some("done")
  {
  }

  lemma ErrorKind(message: string, code: string)
    ensures EventKind(FormatErrorEvent(message, code)) == Some("error")
  {
  }

  lemma SectionDoneOrdinary(section: string)
    requires section == "reading" || section == "grammar" || section == "vocabulary"
    ensures Ordinary(FormatSectionDone(section))
  {
    assert Streaming.NoLineBreak(section);
    assert |section + "_done"| > 5;
  }

  /** The idle marker produces exactly the heartbeat comment, which a client reads as no event at all. */
  lemma IdleIsHeartbeat()
    ensures Translate(None) == Ok([Heartbeat])
    ensures ParseStream(Heartbeat) == [] && Ordinary(Heartbeat)
  {
    HeartbeatDispatchesNothing();
  }

  /** A non-empty token from the reading or grammar node becomes that section's token event. */
  lemma TokenEvents(node: string, c: StreamChunk, rest: EventData)
    requires TokenText(c) != ""
    ensures var e := GraphEvent(Some("on_chat_model_stream"), node, "", Some(rest.(chunk := Some(c))));
      Translate(Some(e)) ==
        if node == "reading" then Ok([FormatReadingToken(TokenText(c))])
        else if node == "grammar" then Ok([FormatGrammarToken(TokenText(c))])
        else Ok([])
  {
  }

  /** Empty tokens, missing chunks and the other nodes' tokens produce nothing. */
  lemma SilentTokens(e: GraphEvent)
    requires e.kind == Some("on_chat_model_stream") && e.data.Some?
    requires e.data.value.chunk.None? || TokenText(e.data.value.chunk.value) == "" || (e.node != "reading" && e.node != "grammar")
    ensures Translate(Some(e)) == Ok([])
  {
  }

  /** The end of the vocabulary node is translated by `VocabularyEnd`, with a missing `data` key read as no output. */
  lemma VocabularyEndTranslated(e: GraphEvent)
    requires e.kind == Some("on_chain_end") && e.name == "vocabulary"
    ensures Translate(Some(e)) == Ok(VocabularyEnd(if e.data.Some? then e.data.value.output else NoOutput))
  {
  }

  /**
   * At the end of the vocabulary node: the error event when there is a
   * non-empty error, otherwise the chunk event when the word list is
   * non-empty; and `vocabulary_done` last in every case.
   */
  lemma VocabularyEndEvents(out: NodeOutput)
    ensures var evs := VocabularyEnd(out);
      && |evs| >= 1 && evs[|evs| - 1] == FormatSectionDone("vocabulary")
      && (out.vocabularyError.Some? && out.vocabularyError.value != "" ==>
            |evs| == 2 && evs[0] == FormatVocabularyError(out.vocabularyError.value))
      && (!(out.vocabularyError.Some? && out.vocabularyError.value != "") && out.vocabularyResult.Some?
            && |out.vocabularyResult.value.words| > 0 ==>
            |evs| == 2 && evs[0] == FormatVocabularyChunk(VocabularyResultFields(out.vocabularyResult.value)))
      && (!(out.vocabularyError.Some? && out.vocabularyError.value != "")
            && !(out.vocabularyResult.Some? && |out.vocabularyResult.value.words| > 0) ==>
            |evs| == 1)
  {
    VocabularyEndLast(out);
    if out.vocabularyError.Some? && out.vocabularyError.value != "" {
      VocabularyEndError(out);
    } else if out.vocabularyResult.Some? && |out.vocabularyResult.value.words| > 0 {
      VocabularyEndChunk(out, out.vocabularyResult.value);
    }
  }

  lemma VocabularyEndLast(out: NodeOutput)
    ensures |VocabularyEnd(out)| >= 1 && VocabularyEnd(out)[|VocabularyEnd(out)| - 1] == FormatSectionDone("vocabulary")
  {
  }

  lemma VocabularyEndError(out: NodeOutput)
    requires out.vocabularyError.Some? && out.vocabularyError.value != ""
    ensures |VocabularyEnd(out)| == 2 && VocabularyEnd(out)[0] == FormatVocabularyError(out.vocabularyError.value)
  {
  }

  lemma VocabularyEndChunk(out: NodeOutput, v: VocabularyResult)
    requires !(out.vocabularyError.Some? && out.vocabularyError.value != "")
    requires out.vocabularyResult == Some(v) && |v.words| > 0
    ensures |VocabularyEnd(out)| == 2 && VocabularyEnd(out)[0] == FormatVocabularyChunk(VocabularyResultFields(v))
  {
  }

  /** The vocabulary agent's own update, as the end of its node reports it. */
  function UpdateOutput(u: Vocabulary.VocabularyUpdate): NodeOutput {
    NodeOutput(u.error, Some(u.result), None)
  }

  /** A failed vocabulary agent is reported with its message; one that parsed no words reports only `vocabulary_done`. */
  lemma VocabularyUpdateEvents(u: Vocabulary.VocabularyUpdate)
    ensures u.error.Some? && u.error.value != "" ==>
      VocabularyEnd(UpdateOutput(u)) == [FormatVocabularyError(u.error.value), FormatSectionDone("vocabulary")]
    ensures u.error.None? && u.result.words == [] ==> VocabularyEnd(UpdateOutput(u)) == [FormatSectionDone("vocabulary")]
  {
  }

  /** The aggregator's vocabulary is sent whenever it is present, even with no words in it. */
  lemma AggregatorVocabulary(e: GraphEvent, response: AnalyzeResponse)
    requires e.kind == Some("on_chain_end") && e.name == "aggregator"
    requires e.data.Some? && e.data.value.output.analyzeResponse == Some(response)
    ensures response.vocabulary.Some? ==>
      Translate(Some(e)) == Ok([FormatVocabularyChunk(VocabularyResultFields(response.vocabulary.value))])
    ensures response.vocabulary.None? ==> Translate(Some(e)) == Ok([])
    ensures response.vocabulary == Some(VocabularyResult([])) ==>
      Translate(Some(e)) == Ok([FormatVocabularyChunk([Field("words", JArr([]))])])
  {
    AggregatorTranslates(e);
    if response.vocabulary == Some(VocabularyResult([])) {
      assert WordEntriesJson([]) == [];
    }
  }

  lemma AggregatorTranslates(e: GraphEvent)
    requires e.kind == Some("on_chain_end") && e.name == "aggregator" && e.data.Some?
    ensures Translate(Some(e)) == Ok(AggregatorEnd(e.data.value.output))
  {
    var out := e.data.value.output;
    assert e.kind.value != "on_chat_model_stream" by { assert e.kind.value[6] != "on_chat_model_stream"[6]; }
    assert Translate(Some(e)) == Ok(ChainEnd(e.name, out));
    assert ChainEnd(e.name, out) == AggregatorEnd(out) by {
      assert e.name[0] != "reading"[0] && e.name[0] != "grammar"[0] && e.name[0] != "vocabulary"[0];
    }
  }

  lemma TokenOrdinary(token: string)
    ensures Ordinary(FormatReadingToken(token)) && Ordinary(FormatGrammarToken(token))
  {
  }

  lemma VocabularyEndOrdinary(out: NodeOutput)
    ensures forall i :: 0 <= i < |VocabularyEnd(out)| ==> Ordinary(VocabularyEnd(out)[i])
  {
    var evs := VocabularyEnd(out);
    VocabularyEndEvents(out);
    forall i | 0 <= i < |evs|
      ensures Ordinary(evs[i])
    {
      if i == |evs| - 1 {
        SectionDoneOrdinary("vocabulary");
      } else if out.vocabularyError.Some? && out.vocabularyError.value != "" {
        VocabularyErrorOrdinary(out.vocabularyError.value);
      } else {
        VocabularyChunkOrdinary(VocabularyResultFields(out.vocabularyResult.value));
      }
    }
  }

  lemma VocabularyErrorOrdinary(message: string)
    ensures Ordinary(FormatVocabularyError(message))
  {
    assert EventKind(FormatVocabularyError(message)) == Some("vocabulary_error");
  }

  lemma VocabularyChunkOrdinary(fields: seq<Field>)
    ensures Ordinary(FormatVocabularyChunk(fields))
  {
    assert EventKind(FormatVocabularyChunk(fields)) == Some("vocabulary_chunk");
  }

  lemma AggregatorEndOrdinary(out: NodeOutput)
    ensures forall i :: 0 <= i < |AggregatorEnd(out)| ==> Ordinary(AggregatorEnd(out)[i])
  {
  }

  /** No item's events are a `done` or an `error` event. */
  lemma TranslateOrdinary(e: Option<GraphEvent>)
    requires Translate(e).Ok?
    ensures forall i :: 0 <= i < |Translate(e).value| ==> Ordinary(Translate(e).value[i])
  {
    if e.None? {
      IdleIsHeartbeat();
    } else if e.value.kind.value == "on_chat_model_stream" {
      if e.value.data.value.chunk.Some? {
        TokenOrdinary(TokenText(e.value.data.value.chunk.value));
      }
    } else if e.value.kind.value == "on_chain_end" {
      var out := if e.value.data.Some? then e.value.data.value.output else NoOutput;
      var name := e.value.name;
      if name == "reading" {
        SectionDoneOrdinary("reading");
      } else if name == "grammar" {
        SectionDoneOrdinary("grammar");
      } else if name == "vocabulary" {
        VocabularyEndOrdinary(out);
      } else if name == "aggregator" {
        AggregatorEndOrdinary(out);
      }
    }
  }

  /** All items translate without an exception. */
  predicate AllTranslate(items: seq<Option<GraphEvent>>) {
    forall i :: 0 <= i < |items| ==> Translate(items[i]).Ok?
  }

  /** The output before the end: the events of all the items, none a `done` or `error` event. */
  lemma {:induction false} OrdinaryBody(items: seq<Option<GraphEvent>>, sessionId: string)
    requires AllTranslate(items)
    ensures GraphOutput(items, false, sessionId) == GraphOutput(items, true, sessionId) + [FormatDoneEvent(sessionId)]
    ensures forall i :: 0 <= i < |GraphOutput(items, true, sessionId)| ==> Ordinary(GraphOutput(items, true, sessionId)[i])
    decreases |items|
  {
    if |items| > 0 {
      assert AllTranslate(items[1..]) by {
        forall i | 0 <= i < |items[1..]| ensures Translate(items[1..][i]).Ok? {
          assert items[1..][i] == items[i + 1];
        }
      }
      var out := Translate(items[0]).value;
      OrdinaryBody(items[1..], sessionId);
      TranslateOrdinary(items[0]);
      var tail := GraphOutput(items[1..], true, sessionId);
      assert GraphOutput(items, true, sessionId) == out + tail;
      forall i | 0 <= i < |out + tail| ensures Ordinary((out + tail)[i]) {
        if i < |out| { assert (out + tail)[i] == out[i]; } else { assert (out + tail)[i] == tail[i - |out|]; }
      }
    }
  }

  /**
   * A stream that ends normally ends with the `done` event carrying the
   * session id, and that is the only `done` or `error` event in it.
   */
  lemma FinishedEndsWithDone(items: seq<Option<GraphEvent>>, sessionId: string)
    requires AllTranslate(items)
    ensures var out := GraphOutput(items, false, sessionId);
      |out| > 0 && out[|out| - 1] == FormatDoneEvent(sessionId)
      && forall i :: 0 <= i < |out| - 1 ==> Ordinary(out[i])
  {
    OrdinaryBody(items, sessionId);
    var body := GraphOutput(items, true, sessionId);
    assert forall i :: 0 <= i < |body| ==> (body + [FormatDoneEvent(sessionId)])[i] == body[i];
  }

  /** A cancelled stream yields the items' events and nothing after them. */
  lemma CancelledAddsNothing(items: seq<Option<GraphEvent>>, sessionId: string)
    requires AllTranslate(items)
    ensures forall i :: 0 <= i < |GraphOutput(items, true, sessionId)| ==> Ordinary(GraphOutput(items, true, sessionId)[i])
  {
    OrdinaryBody(items, sessionId);
  }

  /**
   * An exception at item `k` ends the output with exactly one
   * `processing_error` event carrying its text, and no `done` event is sent,
   * whether or not the stream would later have been cancelled.
   */
  lemma {:induction false} RaisedEndsWithError(items: seq<Option<GraphEvent>>, cancelled: bool, sessionId: string, k: nat)
    requires k < |items| && Translate(items[k]).Err? && AllTranslate(items[..k])
    ensures var out := GraphOutput(items, cancelled, sessionId);
      |out| > 0 && out[|out| - 1] == FormatErrorEvent(Translate(items[k]).error, "processing_error")
      && forall i :: 0 <= i < |out| - 1 ==> Ordinary(out[i])
    decreases k
  {
    if k > 0 {
      RaisedTail(items, k);
      RaisedEndsWithError(items[1..], cancelled, sessionId, k - 1);
      OrdinaryItemFirst(items, cancelled, sessionId, FormatErrorEvent(Translate(items[k]).error, "processing_error"));
    } else {
      RaisedAtFirst(items, cancelled, sessionId);
    }
  }

  /** Before the raising item `k`, the first item translates, and the rest of the stream raises at `k - 1`. */
  lemma RaisedTail(items: seq<Option<GraphEvent>>, k: nat)
    requires 0 < k < |items| && AllTranslate(items[..k])
    ensures Translate(items[0]).Ok?
    ensures AllTranslate(items[1..][..k - 1]) && items[1..][k - 1] == items[k]
  {
    assert items[0] == items[..k][0];
    var before := items[1..][..k - 1];
    forall i | 0 <= i < |before| ensures Translate(before[i]).Ok? {
      assert before[i] == items[..k][i + 1];
    }
  }

  /** An item that raises ends the stream with the one `processing_error` event. */
  lemma RaisedAtFirst(items: seq<Option<GraphEvent>>, cancelled: bool, sessionId: string)
    requires |items| > 0 && Translate(items[0]).Err?
    ensures GraphOutput(items, cancelled, sessionId) == [FormatErrorEvent(Translate(items[0]).error, "processing_error")]
  {
  }

  /** An item that translates comes ahead of the rest of the stream, and its events are ordinary. */
  lemma OrdinaryItemFirst(items: seq<Option<GraphEvent>>, cancelled: bool, sessionId: string, last: string)
    requires |items| > 0 && Translate(items[0]).Ok?
    requires var tail := GraphOutput(items[1..], cancelled, sessionId);
      |tail| > 0 && tail[|tail| - 1] == last && forall i :: 0 <= i < |tail| - 1 ==> Ordinary(tail[i])
    ensures var out := GraphOutput(items, cancelled, sessionId);
      |out| > 0 && out[|out| - 1] == last && forall i :: 0 <= i < |out| - 1 ==> Ordinary(out[i])
  {
    var out := Translate(items[0]).value;
    var tail := GraphOutput(items[1..], cancelled, sessionId);
    TranslateOrdinary(items[0]);
    assert GraphOutput(items, cancelled, sessionId) == out + tail;
    OrdinaryThenLast(out, tail, last);
  }

  /** Ordinary events followed by a stream that ends in `last` after ordinary events end in `last` after ordinary events. */
  lemma OrdinaryThenLast(out: seq<string>, tail: seq<string>, last: string)
    requires forall i :: 0 <= i < |out| ==> Ordinary(out[i])
    requires |tail| > 0 && tail[|tail| - 1] == last && forall i :: 0 <= i < |tail| - 1 ==> Ordinary(tail[i])
    ensures var whole := out + tail;
      |whole| > 0 && whole[|whole| - 1] == last && forall i :: 0 <= i < |whole| - 1 ==> Ordinary(whole[i])
  {
    var whole := out + tail;
    forall i | 0 <= i < |whole| - 1 ensures Ordinary(whole[i]) {
      if i < |out| { assert whole[i] == out[i]; } else { assert whole[i] == tail[i - |out|]; }
    }
  }

  // ----- the heartbeat wrapper -----

  /** What the producer task reports when polled: still running, finished, failed with an exception, or cancelled. */
  datatype ProducerStatus = Running | Completed | Failed | WasCancelled

  /**
   * The outcome of one wait on the queue: an event, the sentinel, or a
   * timeout after which the producer's status is examined.
   */
  datatype Poll = Item(event: GraphEvent) | SentinelSeen | TimedOut(status: ProducerStatus)

  /**
   * What `_stream_with_heartbeat` yields for the given outcomes, and whether
   * it stopped by itself (at the sentinel, or at a timeout after the producer
   * failed) rather than because the outcomes ran out, which is where its
   * consumer stopped pulling.
   */
  function Heartbeats(polls: seq<Poll>): (seq<Option<GraphEvent>>, bool) {
    if |polls| == 0 then ([], false)
    else match polls[0]
      case Item(e) => var r := Heartbeats(polls[1..]); ([Some(e)] + r.0, r.1)
      case SentinelSeen => ([], true)
      case TimedOut(st) =>
        if st == Failed then ([], true)
        else var r := Heartbeats(polls[1..]); ([None] + r.0, r.1)
  }

  /**
   * `_stream_with_heartbeat`. `producerDone` is whether the producer task has
   * finished when the loop exits; `cancelProducer` says whether the `finally`
   * block cancels and awaits it.
   */
  method StreamWithHeartbeat(polls: seq<Poll>, producerDone: bool)
    returns (yielded: seq<Option<GraphEvent>>, stopped: bool, cancelProducer: bool)
    ensures (yielded, stopped) == Heartbeats(polls)
    ensures cancelProducer == !producerDone
  {
    yielded := [];
    stopped := false;
    var i := 0;
    assert polls[0..] == polls;
    while i < |polls|
      invariant 0 <= i <= |polls|
      invariant yielded + Heartbeats(polls[i..]).0 == Heartbeats(polls).0
      invariant Heartbeats(polls[i..]).1 == Heartbeats(polls).1
    {
      assert polls[i..][1..] == polls[i + 1..];
      var h := Heartbeats(polls[i + 1..]);
      match polls[i] {
        case Item(e) =>
          assert yielded + ([Some(e)] + h.0) == (yielded + [Some(e)]) + h.0;
          yielded := yielded + [Some(e)];
        case SentinelSeen =>
          assert yielded + [] == yielded;
          stopped := true;
          break;
        case TimedOut(st) =>
          if st == Failed {
            assert yielded + [] == yielded;
            stopped := true;
            break;
          }
          assert yielded + ([None] + h.0) == (yielded + [None]) + h.0;
          yielded := yielded + [None];
      }
      i := i + 1;
    }
    if !stopped {
      assert polls[i..] == [];
      assert yielded + [] == yielded;
    }
    cancelProducer := !producerDone;
  }

  /** The endpoint's whole stream: the wrapper's items, translated; cancelled when the wrapper did not stop by itself. */
  function EndpointOutput(polls: seq<Poll>, sessionId: string): (r: seq<string>)
    ensures Heartbeats(polls).1 ==> |r| > 0
    ensures Heartbeats(polls).1 && (forall i :: 0 <= i < |Heartbeats(polls).0| ==> Heartbeats(polls).0[i].None?) ==>
      r[|r| - 1] == FormatDoneEvent(sessionId)
  {
    var h := Heartbeats(polls);
    GraphOutput(h.0, !h.1, sessionId)
  }

  /** Every timeout while the producer is still running is one idle marker in the wrapper's output. */
  lemma {:induction false} HeartbeatsBeforeFailure(polls: seq<Poll>, k: nat)
    requires k < |polls| && polls[k] == TimedOut(Failed)
    requires forall i :: 0 <= i < k ==> polls[i].Item? || (polls[i].TimedOut? && polls[i].status != Failed)
    ensures Heartbeats(polls).1
    ensures |Heartbeats(polls).0| == k
    ensures forall i :: 0 <= i < k ==> Heartbeats(polls).0[i] == (if polls[i].Item? then Some(polls[i].event) else None)
    decreases k
  {
    if k > 0 {
      assert polls[1..][k - 1] == polls[k];
      HeartbeatsBeforeFailure(polls[1..], k - 1);
    }
  }

  /**
   * A graph that fails is reported as a success: once the producer has
   * failed, the next timeout stops the wrapper as if the graph had ended, and
   * the client receives `done`, not an error.
   */
  lemma ProducerFailureEndsWithDone(polls: seq<Poll>, k: nat, sessionId: string)
    requires k < |polls| && polls[k] == TimedOut(Failed)
    requires forall i :: 0 <= i < k ==> polls[i].Item? || (polls[i].TimedOut? && polls[i].status != Failed)
    requires AllTranslate(Heartbeats(polls).0)
    ensures var out := EndpointOutput(polls, sessionId);
      |out| > 0 && out[|out| - 1] == FormatDoneEvent(sessionId)
      && forall i :: 0 <= i < |out| - 1 ==> Ordinary(out[i])
  {
    var h := Heartbeats(polls);
    assert h.1 by { HeartbeatsBeforeFailure(polls, k); }
    assert EndpointOutput(polls, sessionId) == GraphOutput(h.0, false, sessionId);
    FinishedEndsWithDone(h.0, sessionId);
  }

  /** The sentinel is never yielded: every item the wrapper yields is an event or an idle marker for a timeout. */
  lemma {:induction false} HeartbeatsCount(polls: seq<Poll>)
    ensures |Heartbeats(polls).0| <= |polls|
    ensures Heartbeats(polls).1 <==> exists i :: 0 <= i < |polls| && (polls[i] == SentinelSeen || polls[i] == TimedOut(Failed))
    decreases |polls|
  {
    if |polls| > 0 {
      HeartbeatsCount(polls[1..]);
      if polls[0] != SentinelSeen && polls[0] != TimedOut(Failed) {
        assert forall i :: 1 <= i < |polls| ==> polls[i] == polls[1..][i - 1];
        if Heartbeats(polls[1..]).1 {
          var j :| 0 <= j < |polls[1..]| && (polls[1..][j] == SentinelSeen || polls[1..][j] == TimedOut(Failed));
          assert polls[j + 1] == polls[1..][j];
        }
      }
    }
  }

  // ----- the import of the vocabulary error formatter -----

  /** The names `services/streaming.py` defines. */
  const StreamingDefines: set<string> := {
    "format_sse_event", "format_reading_chunk", "format_grammar_chunk", "format_vocabulary_chunk",
    "format_done_event", "format_error_event", "format_reading_token", "format_grammar_token",
    "format_section_done"}

  /** The names the router imports from it. */
  const RouterImports: set<string> := {
    "format_done_event", "format_error_event", "format_grammar_token", "format_reading_token",
    "format_section_done", "format_vocabulary_chunk", "format_vocabulary_error"}

  /** `from m import a, b, …` succeeds exactly when the module defines every name. */
  predicate ImportSucceeds(defines: set<string>, imports: set<string>) {
    imports <= defines
  }

  /** As written, the router's import fails: the formatter for `vocabulary_error` is not defined, so the module cannot load. */
  lemma RouterImportFails()
    ensures "format_vocabulary_error" in RouterImports && "format_vocabulary_error" !in StreamingDefines
    ensures !ImportSucceeds(StreamingDefines, RouterImports)
  {
  }

  /** With the formatter defined, as the model's `FormatVocabularyError` defines it, the import succeeds. */
  lemma CorrectedImportSucceeds()
    ensures ImportSucceeds(StreamingDefines + {"format_vocabulary_error"}, RouterImports)
    ensures forall m :: EventKind(FormatVocabularyError(m)) == Some("vocabulary_error")
  {
  }
}
