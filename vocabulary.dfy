/**
 * The vocabulary agent: the Markdown section parser that turns the
 * normalised reply into word entries, and the node that streams the reply.
 * Unlike the grammar agent, its setup runs before the `try`, so a failure
 * there escapes the node and never puts the sentinel on the queue.
 */
module Vocabulary {
  import opened Wrappers
  import opened Text
  import opened Schemas
  import opened State
  import opened Config
  import opened Channel
  import opened Prompts
  import Llm
  import Markdown

  /** Sections are split on a line break followed by a level-2 heading mark. */
  const Separator: string := "\n## "
  const VocabularyMaxTokens: int := 6144

  /** A header that names an instruction section (a prohibition, a principle, a format) rather than a word. */
  predicate IsInstructionHeader(line: string) {
    Contains(line, "금지") || Contains(line, "원칙") || Contains(line, "형식")
  }

  /** No surrounding whitespace. */
  predicate Bare(s: string) {
    s == [] || (!IsPySpace(s[0]) && !IsPySpace(s[|s| - 1]))
  }

  /** `lines[0].strip()`, where `lines` are the lines of the stripped section. */
  function HeaderLine(part: string): string {
    Strip(Split(Strip(part), '\n')[0])
  }

  /** `word_line.lstrip("#").strip()`. */
  function WordOf(wordLine: string): (w: string)
    ensures Bare(w)
  {
    TrimEdges(TrimStart(wordLine, Just('#')), PySpace);
    Strip(TrimStart(wordLine, Just('#')))
  }

  /** The section without its header, when it starts with it, then without trailing dashes and surrounding whitespace. */
  function ContentOf(part: string, wordLine: string): (c: string)
    ensures Bare(c)
  {
    var body := if StartsWith(part, wordLine) then Strip(part[|wordLine|..]) else part;
    TrimEdges(TrimEnd(body, Just('-')), PySpace);
    Strip(TrimEnd(body, Just('-')))
  }

  /**
   * One iteration of the parser's loop: the entry a section yields, or `None`
   * when the section is blank, names an instruction section, or leaves an
   * empty word or an empty content.
   */
  function SectionEntry(part: string): (e: Option<VocabularyWordEntry>)
    ensures e.Some? ==> e.value.word != "" && e.value.content != ""
    ensures e.Some? ==> Bare(e.value.word) && Bare(e.value.content)
  {
    if Strip(part) == "" then None
    else
      var wordLine := HeaderLine(part);
      if IsInstructionHeader(wordLine) then None
      else
        var word := WordOf(wordLine);
        var content := ContentOf(part, wordLine);
        if word != "" && content != "" then Some(VocabularyWordEntry(word, content)) else None
  }

  /** Blank sections and instruction sections yield nothing. */
  lemma SectionSkipped(part: string)
    requires Strip(part) == "" || IsInstructionHeader(HeaderLine(part))
    ensures SectionEntry(part) == None
  {
  }

  /** `[f(x) for x in xs if f(x) is not None]`, in order. */
  function FilterMap<A, B>(xs: seq<A>, f: A -> Option<B>): (ys: seq<B>)
    ensures |ys| <= |xs|
  {
    if |xs| == 0 then []
    else
      var y := f(xs[|xs| - 1]);
      FilterMap(xs[..|xs| - 1], f) + (if y.Some? then [y.value] else [])
  }

  /**
   * Where each result comes from: the indices of the inputs that yield one,
   * increasing, so the results keep the order of their inputs, and every
   * input that yields a result is among them.
   */
  function FilterMapSources<A, B>(xs: seq<A>, f: A -> Option<B>): (idx: seq<nat>)
    ensures |idx| == |FilterMap(xs, f)|
    ensures forall k :: 0 <= k < |idx| ==> idx[k] < |xs| && f(xs[idx[k]]) == Some(FilterMap(xs, f)[k])
    ensures forall k, m :: 0 <= k < m < |idx| ==> idx[k] < idx[m]
    ensures forall j :: 0 <= j < |xs| && f(xs[j]).Some? ==> j in idx
  {
    if |xs| == 0 then []
    else
      var n := |xs| - 1;
      var init := xs[..n];
      var idx := FilterMapSources(init, f);
      var r := if f(xs[n]).Some? then idx + [n] else idx;
      SourcesYield(xs, f, idx, r);
      SourcesComplete(xs, f, idx, r);
      r
  }

  /** The step of `FilterMapSources`: every index still yields its result. */
  lemma SourcesYield<A, B>(xs: seq<A>, f: A -> Option<B>, idx: seq<nat>, r: seq<nat>)
    requires |xs| > 0
    requires |idx| == |FilterMap(xs[..|xs| - 1], f)|
    requires forall k :: 0 <= k < |idx| ==> idx[k] < |xs| - 1 && f(xs[..|xs| - 1][idx[k]]) == Some(FilterMap(xs[..|xs| - 1], f)[k])
    requires r == if f(xs[|xs| - 1]).Some? then idx + [|xs| - 1] else idx
    ensures |r| == |FilterMap(xs, f)|
    ensures forall k :: 0 <= k < |r| ==> r[k] < |xs| && f(xs[r[k]]) == Some(FilterMap(xs, f)[k])
  {
    var n := |xs| - 1;
    var init := xs[..n];
    var y := f(xs[n]);
    var fm := FilterMap(init, f);
    assert FilterMap(xs, f) == fm + (if y.Some? then [y.value] else []);
    forall k | 0 <= k < |r|
      ensures r[k] < |xs| && f(xs[r[k]]) == Some(FilterMap(xs, f)[k])
    {
      if k < |idx| {
        assert r[k] == idx[k] && xs[idx[k]] == init[idx[k]];
      }
    }
  }

  /** The step of `FilterMapSources`: every yielding input is among the indices. */
  lemma SourcesComplete<A, B>(xs: seq<A>, f: A -> Option<B>, idx: seq<nat>, r: seq<nat>)
    requires |xs| > 0
    requires forall j :: 0 <= j < |xs| - 1 && f(xs[..|xs| - 1][j]).Some? ==> j in idx
    requires r == if f(xs[|xs| - 1]).Some? then idx + [|xs| - 1] else idx
    ensures forall j :: 0 <= j < |xs| && f(xs[j]).Some? ==> j in r
  {
    var n := |xs| - 1;
    forall j | 0 <= j < |xs| && f(xs[j]).Some?
      ensures j in r
    {
      if j < n {
        assert xs[j] == xs[..n][j];
      }
    }
  }

  lemma {:induction false} FilterMapAllSome<A, B>(xs: seq<A>, f: A -> Option<B>, ys: seq<B>)
    requires |xs| == |ys|
    requires forall i :: 0 <= i < |xs| ==> f(xs[i]) == Some(ys[i])
    ensures FilterMap(xs, f) == ys
    decreases |xs|
  {
    if |xs| > 0 {
      FilterMapAllSome(xs[..|xs| - 1], f, ys[..|ys| - 1]);
    }
  }

  /** `_parse_vocabulary_words(content)`: the entries of the sections, in section order. */
  function ParseWords(content: string): (ws: seq<VocabularyWordEntry>)
    ensures |ws| <= |SplitOn(content, Separator)|
    ensures forall i :: 0 <= i < |ws| ==>
      ws[i].word != "" && ws[i].content != "" && Bare(ws[i].word) && Bare(ws[i].content)
  {
    var parts := SplitOn(content, Separator);
    var idx := FilterMapSources(parts, SectionEntry);
    FilterMap(parts, SectionEntry)
  }

  /** The parser's loop over `re.split(r"\n## ", content)`. */
  method ParseVocabularyWords(content: string) returns (words: seq<VocabularyWordEntry>)
    ensures words == ParseWords(content)
  {
    var parts := SplitOn(content, Separator);
    words := [];
    var i := 0;
    while i < |parts|
      invariant 0 <= i <= |parts|
      invariant words == FilterMap(parts[..i], SectionEntry)
    {
      assert parts[..i + 1][..i] == parts[..i];
      var entry := SectionEntry(parts[i]);
      if entry.Some? {
        words := words + [entry.value];
      }
      i := i + 1;
    }
    assert parts[..i] == parts;
  }

  /**
   * Every parsed entry has a non-empty word and content without surrounding
   * whitespace, and comes from its own section, in header order.
   */
  lemma ParsedEntries(content: string)
    ensures var ws := ParseWords(content);
      forall i :: 0 <= i < |ws| ==> ws[i].word != "" && ws[i].content != "" && Bare(ws[i].word) && Bare(ws[i].content)
    ensures var parts := SplitOn(content, Separator);
      var idx := FilterMapSources(parts, SectionEntry);
      |idx| == |ParseWords(content)|
      && (forall k :: 0 <= k < |idx| ==> idx[k] < |parts| && SectionEntry(parts[idx[k]]) == Some(ParseWords(content)[k]))
      && (forall k, m :: 0 <= k < m < |idx| ==> idx[k] < idx[m])
  {
    var parts := SplitOn(content, Separator);
    var idx := FilterMapSources(parts, SectionEntry);
  }

  /**
   * An entry the parser gives back exactly: a one-line word that is no
   * instruction header and starts with no heading mark, and a content that
   * does not end in a dash.
   */
  predicate WellShaped(e: VocabularyWordEntry) {
    && e.word != "" && '\n' !in e.word && Bare(e.word) && e.word[0] != '#' && !IsInstructionHeader(e.word)
    && e.content != "" && Bare(e.content) && e.content[|e.content| - 1] != '-'
  }

  /** A well-shaped entry whose section does not contain the separator either. */
  predicate Renderable(e: VocabularyWordEntry) {
    WellShaped(e) && !Contains(Section(e), Separator)
  }

  /** One entry written as the prompt asks: the word line, the content, and a `---` rule. */
  function Section(e: VocabularyWordEntry): string {
    e.word + "\n" + e.content + "\n---"
  }

  function Sections(es: seq<VocabularyWordEntry>): (r: seq<string>)
    ensures |r| == |es|
    ensures forall i :: 0 <= i < |es| ==> r[i] == Section(es[i])
  {
    if |es| == 0 then [] else [Section(es[0])] + Sections(es[1..])
  }

  /** A reply that lists the entries, each under its `## ` heading. */
  function Render(es: seq<VocabularyWordEntry>): (r: string)
    ensures r == "" <==> |es| == 0
    ensures |es| > 0 ==> |r| >= 3 && r[..3] == "## "
  {
    if |es| == 0 then "" else "## " + Join(Sections(es), Separator)
  }

  /** A section under a heading mark of `lead`, which is the first section's `## ` or nothing. */
  lemma SectionRecovered(part: string, lead: string, e: VocabularyWordEntry)
    requires lead == "" || lead == "## "
    requires WellShaped(e)
    requires part == lead + Section(e)
    ensures SectionEntry(part) == Some(e)
  {
    SectionStripped(part, lead, e);
    SectionHeader(part, lead, e);
    SectionWord(part, lead, e);
    SectionContent(part, lead, e);
    SectionOfParts(part, lead + e.word, e.word, e.content);
  }

  lemma SectionStripped(part: string, lead: string, e: VocabularyWordEntry)
    requires lead == "" || lead == "## "
    requires WellShaped(e)
    requires part == lead + Section(e)
    ensures Strip(part) == part
  {
    var h := lead + e.word;
    assert part == h + "\n" + e.content + "\n---";
    assert part[0] == h[0] && part[|part| - 1] == '-';
    TrimNoEdge(part, PySpace);
  }

  lemma SectionHeader(part: string, lead: string, e: VocabularyWordEntry)
    requires lead == "" || lead == "## "
    requires WellShaped(e)
    requires part == lead + Section(e)
    ensures HeaderLine(part) == lead + e.word
  {
    var h := lead + e.word;
    var rest := e.content + "\n---";
    assert part == h + "\n" + rest;
    SectionStripped(part, lead, e);
    HeaderRecovered(part, h, rest);
  }

  lemma SectionWord(part: string, lead: string, e: VocabularyWordEntry)
    requires lead == "" || lead == "## "
    requires WellShaped(e)
    requires part == lead + Section(e)
    ensures !IsInstructionHeader(lead + e.word) && WordOf(lead + e.word) == e.word
  {
    LeadNotInstruction(lead + e.word, lead, e.word);
    WordRecovered(lead + e.word, lead, e.word);
  }

  lemma SectionContent(part: string, lead: string, e: VocabularyWordEntry)
    requires lead == "" || lead == "## "
    requires WellShaped(e)
    requires part == lead + Section(e)
    ensures ContentOf(part, lead + e.word) == e.content
  {
    var h := lead + e.word;
    assert part == h + "\n" + e.content + "\n---";
    ContentRecovered(part, h, e.content);
  }

  /** A section's entry, from its header, word and content. */
  lemma SectionOfParts(part: string, h: string, w: string, b: string)
    requires Strip(part) != "" && HeaderLine(part) == h && !IsInstructionHeader(h)
    requires WordOf(h) == w && ContentOf(part, h) == b && w != "" && b != ""
    ensures SectionEntry(part) == Some(VocabularyWordEntry(w, b))
  {
  }

  /** A heading mark in front of a word does not make it an instruction header. */
  lemma LeadNotInstruction(h: string, lead: string, w: string)
    requires lead == "" || lead == "## "
    requires h == lead + w && !IsInstructionHeader(w)
    ensures !IsInstructionHeader(h)
  {
    ContainsAfterPrefix(lead, w, "금지");
    ContainsAfterPrefix(lead, w, "원칙");
    ContainsAfterPrefix(lead, w, "형식");
  }

  /** The header of a section that starts with a bare one-line header `h` is `h`. */
  lemma HeaderRecovered(part: string, h: string, rest: string)
    requires part == h + "\n" + rest
    requires Strip(part) == part
    requires '\n' !in h && Bare(h)
    ensures HeaderLine(part) == h
  {
    assert part == h + ['\n'] + rest;
    SplitAround(h, rest, '\n');
    SplitNoSep(h, '\n');
    TrimNoEdge(h, PySpace);
  }

  /** With no heading mark, or with `## `, the word line gives the word back. */
  lemma WordRecovered(h: string, lead: string, w: string)
    requires lead == "" || lead == "## "
    requires h == lead + w
    requires w != "" && Bare(w) && w[0] != '#'
    ensures WordOf(h) == w
  {
    if lead == "" {
      assert h == w;
      TrimStartNoEdge(w, Just('#'));
      TrimNoEdge(w, PySpace);
    } else {
      var t := " " + w;
      assert h == "##" + t;
      TrimStartPaddedAt(h, "##", t, Just('#'));
      assert t == " " + w + "";
      TrimPaddedAt(t, " ", w, "", PySpace);
    }
  }

  /** The content between the header line and the closing `---` rule is recovered. */
  lemma ContentRecovered(part: string, h: string, b: string)
    requires Bare(b) && b != "" && b[|b| - 1] != '-'
    requires part == h + "\n" + b + "\n---"
    ensures ContentOf(part, h) == b
  {
    var rest := b + "\n---";
    var t := part[|h|..];
    assert StartsWith(part, h);
    assert t == "\n" + rest + "";
    TrimPaddedAt(t, "\n", rest, "", PySpace);
    var y := b + "\n";
    TrimEndPaddedAt(rest, y, "---", Just('-'));
    assert y == "" + b + "\n";
    TrimPaddedAt(y, "", b, "\n", PySpace);
  }

  /** A section ends in `---`, so no separator can start inside it and run on. */
  lemma SectionNoPartialSep(e: VocabularyWordEntry)
    ensures NoPartialSep(Section(e), Separator)
  {
    var s := Section(e);
    forall k | 0 < k < |Separator| && k <= |s| ensures s[|s| - k..] != Separator[..k] {
      assert s[|s| - k] == '-';
    }
  }

  /** The sections of a rendered reply, the first one under its leading `## `. */
  function RenderedParts(es: seq<VocabularyWordEntry>): (ps: seq<string>)
    requires |es| > 0
    ensures |ps| == |es|
    ensures ps[0] == "## " + Section(es[0])
    ensures forall i :: 0 < i < |es| ==> ps[i] == Section(es[i])
  {
    var secs := Sections(es);
    ["## " + secs[0]] + secs[1..]
  }

  lemma RenderIsJoin(es: seq<VocabularyWordEntry>)
    requires |es| > 0
    ensures Render(es) == Join(RenderedParts(es), Separator)
  {
    var secs := Sections(es);
    if |secs| > 1 {
      assert RenderedParts(es)[1..] == secs[1..];
    }
  }

  lemma RenderedPartsNoSep(es: seq<VocabularyWordEntry>)
    requires |es| > 0
    requires forall i :: 0 <= i < |es| ==> Renderable(es[i])
    ensures forall i :: 0 <= i < |es| ==> !Contains(RenderedParts(es)[i], Separator)
  {
    var parts := RenderedParts(es);
    forall i | 0 <= i < |parts| ensures !Contains(parts[i], Separator) {
      if i == 0 {
        ContainsAfterPrefix("## ", Section(es[0]), Separator);
      }
    }
  }

  lemma RenderedPartsNoPartialSep(es: seq<VocabularyWordEntry>)
    requires |es| > 0
    ensures forall i :: 0 <= i < |es| ==> NoPartialSep(RenderedParts(es)[i], Separator)
  {
    var parts := RenderedParts(es);
    forall i | 0 <= i < |parts| ensures NoPartialSep(parts[i], Separator) {
      SectionNoPartialSep(es[i]);
      if i == 0 {
        var sec := Section(es[0]);
        forall k | 0 < k < |Separator| && k <= |parts[0]| ensures parts[0][|parts[0]| - k..] != Separator[..k] {
          assert parts[0][|parts[0]| - k..] == sec[|sec| - k..];
        }
      }
    }
  }

  lemma RenderedPartsEntries(es: seq<VocabularyWordEntry>)
    requires |es| > 0
    requires forall i :: 0 <= i < |es| ==> WellShaped(es[i])
    ensures forall i :: 0 <= i < |es| ==> SectionEntry(RenderedParts(es)[i]) == Some(es[i])
  {
    var parts := RenderedParts(es);
    forall i | 0 <= i < |parts| ensures SectionEntry(parts[i]) == Some(es[i]) {
      if i == 0 { SectionRecovered(parts[0], "## ", es[0]); } else { SectionRecovered(parts[i], "", es[i]); }
    }
  }

  /** Parsing a reply that lists renderable entries gives those entries back, in order. */
  lemma ParseRender(es: seq<VocabularyWordEntry>)
    requires forall i :: 0 <= i < |es| ==> Renderable(es[i])
    ensures ParseWords(Render(es)) == es
  {
    if |es| == 0 {
      assert SplitOn("", Separator) == [""];
      assert Strip("") == "";
    } else {
      var parts := RenderedParts(es);
      RenderIsJoin(es);
      RenderedPartsNoSep(es);
      RenderedPartsNoPartialSep(es);
      SplitOnJoin(parts, Separator);
      RenderedPartsEntries(es);
      FilterMapAllSome(parts, SectionEntry, es);
    }
  }

  /** A single line without leading whitespace has nothing left once its first line is removed. */
  lemma SingleLineNoEntries(c: string)
    requires '\n' !in c
    requires c == [] || !IsPySpace(c[0])
    ensures ParseWords(c) == []
  {
    assert !Contains(c, Separator) by {
      if Contains(c, Separator) { ContainsChar(c, Separator, 0); }
    }
    SplitOnNoSep(c, Separator);
    assert [c][..0] == [];
    if Strip(c) != "" {
      TrimStartNoEdge(c, PySpace);
      TrimEndPrefix(c, PySpace);
      var r := Strip(c);
      assert r == c[..|r|];
      assert '\n' !in r by {
        assert forall i :: 0 <= i < |r| ==> r[i] == c[i];
      }
      SplitNoSep(r, '\n');
      TrimIdempotent(c, PySpace);
      assert HeaderLine(c) == r;
      TrimEmptyIff(c[|r|..], PySpace);
    }
  }

  /** With leading whitespace the header is not found at the start, and the line becomes an entry of its own. */
  lemma PaddedLineIsEntry()
    ensures ParseWords(" ab") == [VocabularyWordEntry("ab", "ab")]
  {
    assert SplitOn(" ab", Separator) == [" ab"];
    PaddedSection();
    assert [" ab"][..0] == [];
  }

  lemma PaddedSection()
    ensures SectionEntry(" ab") == Some(VocabularyWordEntry("ab", "ab"))
  {
    PaddedStrip();
    PaddedHeader();
    PaddedNotInstruction();
    PaddedWord();
    PaddedContent();
  }

  lemma PaddedStrip()
    ensures Strip(" ab") == "ab"
  {
    TrimPadded(" ", "ab", "", PySpace);
    assert " " + "ab" + "" == " ab";
  }

  lemma PaddedHeader()
    ensures HeaderLine(" ab") == "ab"
  {
    PaddedStrip();
    SplitNoSep("ab", '\n');
    TrimNoEdge("ab", PySpace);
  }

  lemma PaddedNotInstruction()
    ensures !IsInstructionHeader("ab")
  {
    if Contains("ab", "금지") { ContainsChar("ab", "금지", 0); }
    if Contains("ab", "원칙") { ContainsChar("ab", "원칙", 0); }
    if Contains("ab", "형식") { ContainsChar("ab", "형식", 0); }
  }

  lemma PaddedWord()
    ensures WordOf("ab") == "ab"
  {
    TrimStartNoEdge("ab", Just('#'));
    TrimNoEdge("ab", PySpace);
  }

  lemma PaddedContent()
    ensures ContentOf(" ab", "ab") == "ab"
  {
    PaddedStrip();
    assert !StartsWith(" ab", "ab");
    assert TrimEnd(" ab", Just('-')) == " ab";
  }

  /** The node's update: the parsed words, and `vocabulary_error` when the stream failed. */
  datatype VocabularyUpdate = VocabularyUpdate(result: VocabularyResult, error: Option<string>)

  /**
   * The setup before the `try`, in order: `get_settings()`, `get_llm` for the
   * vocabulary model with 6144 output tokens, `get_level_instructions(level)`
   * and `render_prompt`. The result is the prompt, or the message of the
   * first exception, which escapes the node.
   */
  function VocabularySetup(s: TutorState, settings: Result<Settings, string>,
                           instructions: int -> Result<string, string>, renderError: Option<string>)
    : (r: Result<Prompt, string>)
    ensures settings.Err? ==> r == Err(settings.error)
    ensures settings.Ok? && Llm.GetLlm(settings.value.vocabularyModel, settings, Some(VocabularyMaxTokens)).Err? ==>
      r == Err(Llm.GetLlm(settings.value.vocabularyModel, settings, Some(VocabularyMaxTokens)).error)
    ensures r.Ok? <==> (settings.Ok? && Llm.GetLlm(settings.value.vocabularyModel, settings, Some(VocabularyMaxTokens)).Ok?
      && instructions(Level(s)).Ok? && renderError.None?)
    ensures r.Ok? ==> r.value == Prompt("vocabulary.md", InputText(s), Level(s), instructions(Level(s)).value,
      SupervisorContext(s.supervisorAnalysis))
  {
    if settings.Err? then Err(settings.error)
    else
      var llm := Llm.GetLlm(settings.value.vocabularyModel, settings, Some(VocabularyMaxTokens));
      if llm.Err? then Err(llm.error)
      else
        var level := Level(s);
        var levelInstructions := instructions(level);
        if levelInstructions.Err? then Err(levelInstructions.error)
        else if renderError.Some? then Err(renderError.value)
        else Ok(Prompt("vocabulary.md", InputText(s), level, levelInstructions.value,
          SupervisorContext(s.supervisorAnalysis)))
  }

  /** What `vocabulary_node` returns (`Ok`) or raises (`Err`). */
  function VocabularyOutcome(s: TutorState, settings: Result<Settings, string>, instructions: int -> Result<string, string>,
                             renderError: Option<string>, reply: Prompt -> Reply): (r: Result<VocabularyUpdate, string>)
    ensures r.Err? <==> VocabularySetup(s, settings, instructions, renderError).Err?
    ensures r.Err? ==> r.error == VocabularySetup(s, settings, instructions, renderError).error
    ensures r.Ok? && r.value.error.Some? ==> r.value.result.words == []
    ensures r.Ok? ==> r.value.error == reply(VocabularySetup(s, settings, instructions, renderError).value).failure
  {
    var setup := VocabularySetup(s, settings, instructions, renderError);
    if setup.Err? then Err(setup.error)
    else
      var answer := reply(setup.value);
      if answer.failure.Some? then Ok(VocabularyUpdate(EmptyVocabularyResult(), Some(answer.failure.value)))
      else
        var content := Markdown.NormalizeVocabularyOutput(Concat(Tokens(answer.chunks)));
        Ok(VocabularyUpdate(VocabularyResult(ParseWords(content)), None))
  }

  /** Everything the node puts on a supplied queue: nothing when the setup raises, else the tokens and the sentinel. */
  function VocabularyPushes(s: TutorState, settings: Result<Settings, string>, instructions: int -> Result<string, string>,
                            renderError: Option<string>, reply: Prompt -> Reply): seq<Option<string>>
  {
    var setup := VocabularySetup(s, settings, instructions, renderError);
    if setup.Err? then [] else Pushes(Tokens(reply(setup.value).chunks)) + [None]
  }

  /** `vocabulary_node(state, token_queue)`; `queue` is null when no queue is supplied. */
  method VocabularyNode(s: TutorState, settings: Result<Settings, string>, instructions: int -> Result<string, string>,
                        renderError: Option<string>, reply: Prompt -> Reply, queue: TokenQueue?)
    returns (r: Result<VocabularyUpdate, string>)
    modifies queue
    ensures r == VocabularyOutcome(s, settings, instructions, renderError, reply)
    ensures queue != null ==> queue.items == old(queue.items) + VocabularyPushes(s, settings, instructions, renderError, reply)
  {
    var setup := VocabularySetup(s, settings, instructions, renderError);
    if setup.Err? {
      return Err(setup.error);
    }
    var answer := reply(setup.value);
    var accumulated := Consume(answer.chunks, queue);
    if answer.failure.Some? {
      if queue != null {
        queue.Put(None);
      }
      return Ok(VocabularyUpdate(EmptyVocabularyResult(), Some(answer.failure.value)));
    }
    if queue != null {
      queue.Put(None);
    }
    var words := WordsOfReply(accumulated);
    r := Ok(VocabularyUpdate(VocabularyResult(words), None));
  }

  /** The tail of the node: normalise the accumulated reply, then parse it. */
  method WordsOfReply(accumulated: string) returns (words: seq<VocabularyWordEntry>)
    ensures words == ParseWords(Markdown.NormalizeVocabularyOutput(accumulated))
  {
    var content := Markdown.NormalizeVocabularyOutput(accumulated);
    words := ParseVocabularyWords(content);
  }

  /**
   * Once the setup has succeeded, a queue that held no sentinel ends with
   * exactly one, after every token; when the setup raises, it gets none at all.
   */
  lemma VocabularyEndsQueue(s: TutorState, settings: Result<Settings, string>, instructions: int -> Result<string, string>,
                            renderError: Option<string>, reply: Prompt -> Reply, before: seq<Option<string>>)
    requires None !in before
    ensures var items := before + VocabularyPushes(s, settings, instructions, renderError, reply);
      SentinelLast(items)
      && Sentinels(items) == (if VocabularyOutcome(s, settings, instructions, renderError, reply).Err? then 0 else 1)
  {
    var setup := VocabularySetup(s, settings, instructions, renderError);
    var pushes := VocabularyPushes(s, settings, instructions, renderError, reply);
    if setup.Err? {
      assert pushes == [];
      assert before + pushes == before;
      assert VocabularyOutcome(s, settings, instructions, renderError, reply).Err?;
    } else {
      var ts := Tokens(reply(setup.value).chunks);
      assert pushes == Pushes(ts) + [None];
      EndedOnceWith(before, pushes, ts);
      assert VocabularyOutcome(s, settings, instructions, renderError, reply).Ok?;
    }
  }

  /**
   * On success the words are parsed from the normalised text of the whole
   * stream, which is what the consumer read off the queue.
   */
  lemma VocabularyWordsFromStream(s: TutorState, settings: Result<Settings, string>, instructions: int -> Result<string, string>,
                                  renderError: Option<string>, reply: Prompt -> Reply, p: Prompt)
    requires VocabularySetup(s, settings, instructions, renderError) == Ok(p)
    requires reply(p).failure.None?
    ensures var pushed := VocabularyPushes(s, settings, instructions, renderError, reply);
      Concat(Received(pushed[..|pushed| - 1])) == StreamText(reply(p).chunks)
    ensures VocabularyOutcome(s, settings, instructions, renderError, reply)
      == Ok(VocabularyUpdate(VocabularyResult(ParseWords(Markdown.NormalizeVocabularyOutput(StreamText(reply(p).chunks)))), None))
  {
    var ts := Tokens(reply(p).chunks);
    var pushed := VocabularyPushes(s, settings, instructions, renderError, reply);
    assert pushed[..|pushed| - 1] == Pushes(ts);
    ReceivedPushes(ts);
    AccumulatedIsStreamText(reply(p).chunks);
  }

  /** A failed stream is caught: the sentinel is still sent, and the result is empty with the message. */
  lemma VocabularyStreamFailure(s: TutorState, settings: Result<Settings, string>, instructions: int -> Result<string, string>,
                                renderError: Option<string>, reply: Prompt -> Reply)
    requires VocabularySetup(s, settings, instructions, renderError).Ok?
    requires reply(VocabularySetup(s, settings, instructions, renderError).value).failure.Some?
    ensures var e := reply(VocabularySetup(s, settings, instructions, renderError).value).failure.value;
      VocabularyOutcome(s, settings, instructions, renderError, reply) == Ok(VocabularyUpdate(VocabularyResult([]), Some(e)))
    ensures var pushed := VocabularyPushes(s, settings, instructions, renderError, reply);
      |pushed| > 0 && pushed[|pushed| - 1] == None
  {
  }
}
