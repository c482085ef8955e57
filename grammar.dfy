/**
 * The grammar agent: it renders its prompt, streams the model's reply token
 * by token onto the queue it may be handed, ends the queue with the sentinel,
 * and returns the normalised text. Every exception, the setup's included, is
 * caught: the queue still gets its sentinel and the update carries the message.
 */
module Grammar {
  import opened Wrappers
  import opened Text
  import opened Schemas
  import opened State
  import opened Config
  import opened Channel
  import opened Prompts
  import Llm
  import Markdown

  /** The node's update: `grammar_result` with the content, or `grammar_result` None and `grammar_error`. */
  datatype GrammarUpdate = GrammarDone(result: GrammarResult) | GrammarFailed(error: string)

  /**
   * The setup inside the `try`, in order: `get_settings()`, `get_llm` for the
   * grammar model, `get_level_instructions(level)` and `render_prompt`. The
   * result is the prompt, or the message of the first exception. `settings`
   * is what `get_settings()` gives, `instructions` what
   * `get_level_instructions` gives for a level, and `renderError` the
   * exception loading the template raises, if any.
   */
  function GrammarSetup(s: TutorState, settings: Result<Settings, string>,
                        instructions: int -> Result<string, string>, renderError: Option<string>)
    : (r: Result<Prompt, string>)
    ensures settings.Err? ==> r == Err(settings.error)
    ensures settings.Ok? && Llm.GetLlm(settings.value.grammarModel, settings).Err? ==>
      r == Err(Llm.GetLlm(settings.value.grammarModel, settings).error)
    ensures r.Ok? <==> (settings.Ok? && Llm.GetLlm(settings.value.grammarModel, settings).Ok?
      && instructions(Level(s)).Ok? && renderError.None?)
    ensures r.Ok? ==> r.value == Prompt("grammar.md", InputText(s), Level(s), instructions(Level(s)).value,
      SupervisorContext(s.supervisorAnalysis))
  {
    if settings.Err? then Err(settings.error)
    else
      var llm := Llm.GetLlm(settings.value.grammarModel, settings);
      if llm.Err? then Err(llm.error)
      else
        var level := Level(s);
        var levelInstructions := instructions(level);
        if levelInstructions.Err? then Err(levelInstructions.error)
        else if renderError.Some? then Err(renderError.value)
        else Ok(Prompt("grammar.md", InputText(s), level, levelInstructions.value,
          SupervisorContext(s.supervisorAnalysis)))
  }

  /** What `grammar_node` returns; `reply` is the streamed answer of the model to a prompt. */
  function GrammarOutcome(s: TutorState, settings: Result<Settings, string>, instructions: int -> Result<string, string>,
                          renderError: Option<string>, reply: Prompt -> Reply): (r: GrammarUpdate)
    ensures var setup := GrammarSetup(s, settings, instructions, renderError);
      (r.GrammarFailed? <==> setup.Err? || reply(setup.value).failure.Some?)
      && (setup.Err? ==> r.error == setup.error)
      && (setup.Ok? && reply(setup.value).failure.Some? ==> r.error == reply(setup.value).failure.value)
  {
    var setup := GrammarSetup(s, settings, instructions, renderError);
    if setup.Err? then GrammarFailed(setup.error)
    else
      var answer := reply(setup.value);
      if answer.failure.Some? then GrammarFailed(answer.failure.value)
      else GrammarDone(GrammarResult(Markdown.NormalizeGrammarOutput(Concat(Tokens(answer.chunks)))))
  }

  /** Everything the node puts on a supplied queue: the tokens that arrived, then the sentinel. */
  function GrammarPushes(s: TutorState, settings: Result<Settings, string>, instructions: int -> Result<string, string>,
                         renderError: Option<string>, reply: Prompt -> Reply): seq<Option<string>>
  {
    var setup := GrammarSetup(s, settings, instructions, renderError);
    if setup.Err? then [None] else Pushes(Tokens(reply(setup.value).chunks)) + [None]
  }

  /** `grammar_node(state, token_queue)`; `queue` is null when no queue is supplied. */
  method GrammarNode(s: TutorState, settings: Result<Settings, string>, instructions: int -> Result<string, string>,
                     renderError: Option<string>, reply: Prompt -> Reply, queue: TokenQueue?)
    returns (u: GrammarUpdate)
    modifies queue
    ensures u == GrammarOutcome(s, settings, instructions, renderError, reply)
    ensures queue != null ==> queue.items == old(queue.items) + GrammarPushes(s, settings, instructions, renderError, reply)
  {
    var setup := GrammarSetup(s, settings, instructions, renderError);
    if setup.Err? {
      if queue != null {
        queue.Put(None);
      }
      return GrammarFailed(setup.error);
    }
    var answer := reply(setup.value);
    var accumulated := Consume(answer.chunks, queue);
    if answer.failure.Some? {
      if queue != null {
        queue.Put(None);
      }
      return GrammarFailed(answer.failure.value);
    }
    if queue != null {
      queue.Put(None);
    }
    var content := Markdown.NormalizeGrammarOutput(accumulated);
    u := GrammarDone(GrammarResult(content));
  }

  /**
   * Whatever happens, a queue that held no sentinel ends with exactly one,
   * after every token.
   */
  lemma GrammarEndsQueue(s: TutorState, settings: Result<Settings, string>, instructions: int -> Result<string, string>,
                         renderError: Option<string>, reply: Prompt -> Reply, before: seq<Option<string>>)
    requires None !in before
    ensures SentinelLast(before + GrammarPushes(s, settings, instructions, renderError, reply))
    ensures Sentinels(before + GrammarPushes(s, settings, instructions, renderError, reply)) == 1
  {
    var setup := GrammarSetup(s, settings, instructions, renderError);
    var pushes := GrammarPushes(s, settings, instructions, renderError, reply);
    var ts := if setup.Err? then [] else Tokens(reply(setup.value).chunks);
    assert pushes == Pushes(ts) + [None];
    EndedOnceWith(before, pushes, ts);
  }

  /**
   * On success the content is the normalisation of exactly the text the
   * consumer read off the queue, which is all the text the model streamed.
   */
  lemma GrammarContentIsStream(s: TutorState, settings: Result<Settings, string>, instructions: int -> Result<string, string>,
                               renderError: Option<string>, reply: Prompt -> Reply)
    requires GrammarOutcome(s, settings, instructions, renderError, reply).GrammarDone?
    ensures var p := GrammarSetup(s, settings, instructions, renderError).value;
      var pushed := GrammarPushes(s, settings, instructions, renderError, reply);
      pushed[|pushed| - 1] == None
      && Concat(Received(pushed[..|pushed| - 1])) == StreamText(reply(p).chunks)
      && GrammarOutcome(s, settings, instructions, renderError, reply).result.content
         == Markdown.NormalizeGrammarOutput(StreamText(reply(p).chunks))
  {
    var p := GrammarSetup(s, settings, instructions, renderError).value;
    var ts := Tokens(reply(p).chunks);
    var pushed := GrammarPushes(s, settings, instructions, renderError, reply);
    assert pushed[..|pushed| - 1] == Pushes(ts);
    ReceivedPushes(ts);
    AccumulatedIsStreamText(reply(p).chunks);
  }

  /**
   * A setup failure, a refused model name among them, still ends the queue and
   * yields `grammar_result` None with the message.
   */
  lemma GrammarSetupFailure(s: TutorState, settings: Result<Settings, string>, instructions: int -> Result<string, string>,
                            renderError: Option<string>, reply: Prompt -> Reply)
    requires settings.Ok? && StartsWith(settings.value.grammarModel, "claude-")
    ensures GrammarOutcome(s, settings, instructions, renderError, reply)
      == GrammarFailed(Llm.ClaudeRejected(settings.value.grammarModel))
    ensures GrammarPushes(s, settings, instructions, renderError, reply) == [None]
  {
    ClaudeGrammarModelRefused(s, settings, instructions, renderError);
  }

  lemma ClaudeGrammarModelRefused(s: TutorState, settings: Result<Settings, string>,
                                  instructions: int -> Result<string, string>, renderError: Option<string>)
    requires settings.Ok? && StartsWith(settings.value.grammarModel, "claude-")
    ensures GrammarSetup(s, settings, instructions, renderError) == Err(Llm.ClaudeRejected(settings.value.grammarModel))
  {
  }
}
