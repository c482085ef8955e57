/**
 * The token-producer protocol the grammar and vocabulary agents share: the
 * chunks a model stream delivers, the queue an agent may be handed, and the
 * loop that accumulates the text tokens and pushes each onto the queue. A
 * `None` on the queue is the sentinel that tells the consumer the stream ended.
 */
module Channel {
  import opened Wrappers

  /**
   * One chunk of a model stream: string content, content that is not a
   * string (multimodal or tool-use parts), or no `content` attribute at all.
   */
  datatype Chunk = TextChunk(text: string) | NonTextChunk | NoContent

  /**
   * A model's streamed reply: the chunks it delivered, then the exception
   * that ended the stream, if one did.
   */
  datatype Reply = Reply(chunks: seq<Chunk>, failure: Option<string>)

  /** The token a chunk contributes: its content, when that is a non-empty string. */
  function TokenOf(c: Chunk): (t: Option<string>)
    ensures t.Some? <==> c.TextChunk? && c.text != ""
    ensures t.Some? ==> t.value == c.text
  {
    if c.TextChunk? && c.text != "" then Some(c.text) else None
  }

  /** The tokens of a stream, in arrival order. */
  function Tokens(cs: seq<Chunk>): (ts: seq<string>)
    ensures |ts| <= |cs|
    ensures forall i :: 0 <= i < |ts| ==> ts[i] != ""
  {
    if |cs| == 0 then []
    else
      var t := TokenOf(cs[|cs| - 1]);
      Tokens(cs[..|cs| - 1]) + (if t.Some? then [t.value] else [])
  }

  function Concat(ts: seq<string>): string {
    if |ts| == 0 then "" else Concat(ts[..|ts| - 1]) + ts[|ts| - 1]
  }

  /** Everything the stream said: the string contents of its chunks, in order. */
  function StreamText(cs: seq<Chunk>): (r: string)
    ensures (forall i :: 0 <= i < |cs| ==> !cs[i].TextChunk?) ==> r == ""
    ensures forall i :: 0 <= i < |cs| && cs[i].TextChunk? ==> |cs[i].text| <= |r|
  {
    if |cs| == 0 then ""
    else
      var init := cs[..|cs| - 1];
      assert forall i :: 0 <= i < |init| ==> init[i] == cs[i];
      StreamText(init) + (if cs[|cs| - 1].TextChunk? then cs[|cs| - 1].text else "")
  }

  /** The queue entries that push the given tokens. */
  function Pushes(ts: seq<string>): (r: seq<Option<string>>)
    ensures |r| == |ts|
    ensures forall i :: 0 <= i < |ts| ==> r[i] == Some(ts[i])
  {
    if |ts| == 0 then [] else Pushes(ts[..|ts| - 1]) + [Some(ts[|ts| - 1])]
  }

  /** The sentinel invariant: a `None` may appear only as the last entry. */
  predicate SentinelLast(items: seq<Option<string>>) {
    forall i :: 0 <= i < |items| && items[i].None? ==> i == |items| - 1
  }

  function Sentinels(items: seq<Option<string>>): (n: nat)
    ensures n <= |items|
    ensures n == 0 <==> None !in items
  {
    if |items| == 0 then 0
    else Sentinels(items[..|items| - 1]) + (if items[|items| - 1].None? then 1 else 0)
  }

  /** The tokens a queue received, in order, skipping the sentinel. */
  function Received(items: seq<Option<string>>): seq<string> {
    if |items| == 0 then []
    else Received(items[..|items| - 1]) + (if items[|items| - 1].Some? then [items[|items| - 1].value] else [])
  }

  /** The `asyncio.Queue` handed to an agent, as the sequence of everything put on it. */
  class TokenQueue {
    var items: seq<Option<string>>

    constructor ()
      ensures items == []
    {
      items := [];
    }

    /** `await queue.put(x)`. */
    method Put(x: Option<string>)
      modifies this
      ensures items == old(items) + [x]
    {
      items := items + [x];
    }
  }

  /**
   * The `async for chunk in llm.astream(prompt)` loop: skips chunks without
   * string content and empty tokens, accumulates the rest and, when a queue
   * is supplied, puts each token on it.
   */
  method Consume(chunks: seq<Chunk>, queue: TokenQueue?) returns (accumulated: string)
    modifies queue
    ensures accumulated == Concat(Tokens(chunks))
    ensures queue != null ==> queue.items == old(queue.items) + Pushes(Tokens(chunks))
  {
    accumulated := "";
    var i := 0;
    while i < |chunks|
      invariant 0 <= i <= |chunks|
      invariant accumulated == Concat(Tokens(chunks[..i]))
      invariant queue != null ==> queue.items == old(queue.items) + Pushes(Tokens(chunks[..i]))
    {
      var chunk := chunks[i];
      TokensStep(chunks, i);
      if chunk.TextChunk? {
        var token := chunk.text;
        if token != "" {
          ConsumeStep(Tokens(chunks[..i]), token, Tokens(chunks[..i + 1]));
          accumulated := accumulated + token;
          if queue != null {
            queue.Put(Some(token));
          }
        }
      }
      i := i + 1;
    }
    assert chunks[..i] == chunks;
  }

  /** The tokens of one more chunk: those before it, then its own token if it has one. */
  lemma TokensStep(chunks: seq<Chunk>, i: nat)
    requires i < |chunks|
    ensures TokenOf(chunks[i]).None? ==> Tokens(chunks[..i + 1]) == Tokens(chunks[..i])
    ensures TokenOf(chunks[i]).Some? ==> Tokens(chunks[..i + 1]) == Tokens(chunks[..i]) + [TokenOf(chunks[i]).value]
  {
    assert chunks[..i + 1][..i] == chunks[..i];
    assert chunks[..i + 1][i] == chunks[i];
  }

  /** One more token: appended to the text and to the pushes. */
  lemma ConsumeStep(ts: seq<string>, token: string, ts': seq<string>)
    requires ts' == ts + [token]
    ensures Concat(ts') == Concat(ts) + token
    ensures Pushes(ts') == Pushes(ts) + [Some(token)]
  {
    assert ts'[..|ts|] == ts;
  }

  lemma {:induction false} ConcatAppend(ts: seq<string>, us: seq<string>)
    ensures Concat(ts + us) == Concat(ts) + Concat(us)
    decreases |us|
  {
    if |us| == 0 {
      assert ts + us == ts;
    } else {
      var init := us[..|us| - 1];
      var last := us[|us| - 1];
      assert (ts + us)[..|ts + us| - 1] == ts + init;
      assert (ts + us)[|ts + us| - 1] == last;
      assert Concat(ts + us) == Concat(ts + init) + last;
      ConcatAppend(ts, init);
      assert Concat(us) == Concat(init) + last;
    }
  }

  /** The accumulated text is all the stream's text: dropping empty tokens loses nothing. */
  lemma {:induction false} AccumulatedIsStreamText(cs: seq<Chunk>)
    ensures Concat(Tokens(cs)) == StreamText(cs)
    decreases |cs|
  {
    if |cs| > 0 {
      AccumulatedIsStreamText(cs[..|cs| - 1]);
      var t := TokenOf(cs[|cs| - 1]);
      ConcatAppend(Tokens(cs[..|cs| - 1]), if t.Some? then [t.value] else []);
    }
  }

  /** What the consumer reads off the queue is exactly the token sequence, so it concatenates to the accumulated text. */
  lemma {:induction false} ReceivedPushes(ts: seq<string>)
    ensures Received(Pushes(ts)) == ts
    ensures Concat(Received(Pushes(ts))) == Concat(ts)
    decreases |ts|
  {
    if |ts| > 0 {
      ReceivedPushes(ts[..|ts| - 1]);
      assert Pushes(ts)[..|ts| - 1] == Pushes(ts[..|ts| - 1]);
    }
  }

  lemma {:induction false} SentinelsAppend(xs: seq<Option<string>>, ys: seq<Option<string>>)
    ensures Sentinels(xs + ys) == Sentinels(xs) + Sentinels(ys)
    decreases |ys|
  {
    if |ys| == 0 {
      assert xs + ys == xs;
    } else {
      assert (xs + ys)[..|xs + ys| - 1] == xs + ys[..|ys| - 1];
      SentinelsAppend(xs, ys[..|ys| - 1]);
    }
  }

  /**
   * A queue that held no sentinel and then receives tokens followed by one
   * sentinel holds exactly one `None`, and it is the last entry.
   */
  lemma EndedOnce(before: seq<Option<string>>, ts: seq<string>)
    requires None !in before
    ensures SentinelLast(before + Pushes(ts) + [None])
    ensures Sentinels(before + Pushes(ts) + [None]) == 1
  {
    var items := before + Pushes(ts) + [None];
    assert forall i :: 0 <= i < |before| ==> items[i] == before[i];
    assert forall i :: |before| <= i < |before| + |ts| ==> items[i] == Pushes(ts)[i - |before|];
    assert None !in Pushes(ts);
    SentinelsAppend(before + Pushes(ts), [None]);
    SentinelsAppend(before, Pushes(ts));
  }

  /** `EndedOnce` for pushes already known to be the tokens and the sentinel. */
  lemma EndedOnceWith(before: seq<Option<string>>, pushes: seq<Option<string>>, ts: seq<string>)
    requires None !in before && pushes == Pushes(ts) + [None]
    ensures SentinelLast(before + pushes) && Sentinels(before + pushes) == 1
  {
    EndedOnce(before, ts);
    assert before + pushes == before + Pushes(ts) + [None];
  }
}
