/**
 * The supervisor node: a pre-analysis of the input text by a model, read from
 * the first `{` to the last `}` of its reply, with every value clamped to the
 * level range, and a period-based fallback whenever anything in that goes wrong.
 */
module Supervisor {
  import opened Wrappers
  import opened Text
  import opened Json
  import opened Schemas
  import opened State
  import Config
  import Llm

  const FallbackFocus: seq<string> := ["reading"]
  const DefaultFocusSummary: seq<string> := ["reading", "grammar", "vocabulary"]
  const SupervisorMaxTokens: int := 1024
  const SupervisorTimeout: int := 30

  /** The update the node returns: nothing, or a `supervisor_analysis`. */
  datatype SupervisorUpdate = NoUpdate | Analysis(analysis: SupervisorAnalysis)

  /** The pieces between periods that are not blank, stripped, in order. */
  function FallbackPieces(text: string): (r: seq<string>)
    ensures forall o :: o in r ==> o != "" && Strip(o) == o && '.' !in o
  {
    var pieces := Split(text, '.');
    Config.StrippedNonBlankClean(pieces);
    Config.StrippedNonBlankWithout(pieces, '.');
    Config.StrippedNonBlank(pieces)
  }

  /** The sentence texts of the fallback: each kept piece followed by a period. */
  function FallbackTexts(text: string): (r: seq<string>)
    ensures |r| == |FallbackPieces(text)|
    ensures forall i :: 0 <= i < |r| ==> r[i] == FallbackPieces(text)[i] + "."
  {
    WithPeriods(FallbackPieces(text))
  }

  function WithPeriods(xs: seq<string>): (r: seq<string>)
    ensures |r| == |xs|
    ensures forall i :: 0 <= i < |xs| ==> r[i] == xs[i] + "."
  {
    if |xs| == 0 then [] else [xs[0] + "."] + WithPeriods(xs[1..])
  }

  function FallbackEntries(texts: seq<string>, level: int): (r: seq<SentenceEntry>)
    ensures |r| == |texts|
    ensures forall i :: 0 <= i < |r| ==> r[i] == SentenceEntry(texts[i], level, FallbackFocus)
  {
    if |texts| == 0 then [] else [SentenceEntry(texts[0], level, FallbackFocus)] + FallbackEntries(texts[1..], level)
  }

  /**
   * `_fallback_analysis(text, level)`. The records validate their difficulty,
   * so a level outside 1..5 makes the construction fail.
   */
  function Fallback(text: string, level: int): (r: Result<SupervisorAnalysis, string>)
    ensures r.Ok? <==> InLevelRange(level)
    ensures r.Ok? ==> ValidSupervisorAnalysis(r.value)
    ensures r.Ok? ==> (r.value.overallDifficulty == level && r.value.focusSummary == DefaultFocusSummary
      && |r.value.sentences| == |FallbackTexts(text)|)
    ensures r.Ok? ==> forall i :: 0 <= i < |r.value.sentences| ==>
      r.value.sentences[i] == SentenceEntry(FallbackTexts(text)[i], level, FallbackFocus)
  {
    if !InLevelRange(level) then Err("validation error: difficulty must be between 1 and 5")
    else Ok(SupervisorAnalysis(FallbackEntries(FallbackTexts(text), level), level, DefaultFocusSummary))
  }

  /** Two period-free sentences, each closed by a period, split into both and a final empty piece. */
  lemma SplitTwoSentences(a: string, b: string)
    requires '.' !in a && '.' !in b
    ensures Split(a + "." + b + ".", '.') == [a, b, ""]
  {
    assert a + "." + b + "." == (a + ['.'] + b) + ['.'] + "";
    SplitAround(a + ['.'] + b, "", '.');
    SplitAround(a, b, '.');
    SplitNoSep(a, '.');
    SplitNoSep(b, '.');
    assert Split("", '.') == [""];
  }

  /** The fallback of two sentences gives their texts, stripped, in order. */
  lemma FallbackOfTwo(a: string, b: string, level: int)
    requires '.' !in a && '.' !in b
    requires a != "" && !IsPySpace(a[0]) && !IsPySpace(a[|a| - 1])
    requires |b| >= 2 && b[0] == ' ' && !IsPySpace(b[1]) && !IsPySpace(b[|b| - 1])
    requires InLevelRange(level)
    ensures FallbackTexts(a + "." + b + ".") == [a + ".", b[1..] + "."]
    ensures |Fallback(a + "." + b + ".", level).value.sentences| == 2
  {
    var pieces := [a, b, ""];
    SplitTwoSentences(a, b);
    TrimNoEdge(a, PySpace);
    TrimStartStep(b, PySpace);
    TrimNoEdge(b[1..], PySpace);
    TrimNoEdge("", PySpace);
    assert Config.StrippedNonBlank(pieces) == [a] + Config.StrippedNonBlank(pieces[1..]);
    assert Config.StrippedNonBlank(pieces[1..]) == [b[1..]] + Config.StrippedNonBlank(pieces[2..]);
    assert Config.StrippedNonBlank(pieces[2..]) == [] + Config.StrippedNonBlank([]);
  }

  /** "Hello world. This is a test." at level 3: two entries. */
  lemma FallbackOfTwoSentences(text: string)
    requires text == "Hello world. This is a test."
    ensures FallbackTexts(text) == ["Hello world.", "This is a test."]
    ensures |Fallback(text, 3).value.sentences| == 2
  {
    var a := "Hello world";
    var b := " This is a test";
    assert text == a + "." + b + ".";
    assert b[1..] == "This is a test";
    assert a + "." == "Hello world." && b[1..] + "." == "This is a test.";
    TwoSentencesShape(a, b);
    FallbackOfTwo(a, b, 3);
  }

  lemma TwoSentencesShape(a: string, b: string)
    requires a == "Hello world" && b == " This is a test"
    ensures '.' !in a && '.' !in b
    ensures a != "" && !IsPySpace(a[0]) && !IsPySpace(a[|a| - 1])
    ensures |b| >= 2 && b[0] == ' ' && !IsPySpace(b[1]) && !IsPySpace(b[|b| - 1])
  {
  }

  /** `max(1, min(5, x))`. */
  function Clamp(x: int): (r: int)
    ensures InLevelRange(r)
    ensures InLevelRange(x) ==> r == x
    ensures x < MinLevel ==> r == MinLevel
    ensures x > MaxLevel ==> r == MaxLevel
  {
    if x < 1 then 1 else if x > 5 then 5 else x
  }

  /**
   * The clamp applied to a decoded JSON value: an integer is clamped, a boolean
   * compares as 0 or 1 and so clamps to 1, and anything else fails the comparison.
   */
  function ClampJson(j: Json): (r: Option<int>)
    ensures r.Some? ==> InLevelRange(r.value)
    ensures r.None? <==> !(j.JInt? || j.JBool?)
    ensures j.JInt? ==> r == Some(Clamp(j.i))
  {
    match j
    case JInt(i) => Some(Clamp(i))
    case JBool(_) => Some(1)
    case _ => None
  }

  /** A `list[str]` field: a JSON array of strings, and nothing else. */
  function StringList(j: Json): (r: Option<seq<string>>)
    ensures r.Some? <==> (j.JArr? && forall i :: 0 <= i < |j.items| ==> j.items[i].JStr?)
    ensures r.Some? ==> |r.value| == |j.items| && forall i :: 0 <= i < |r.value| ==> j.items[i] == JStr(r.value[i])
  {
    if !j.JArr? then None
    else StringItems(j.items)
  }

  function StringItems(items: seq<Json>): (r: Option<seq<string>>)
    ensures r.Some? <==> forall i :: 0 <= i < |items| ==> items[i].JStr?
    ensures r.Some? ==> |r.value| == |items| && forall i :: 0 <= i < |r.value| ==> items[i] == JStr(r.value[i])
  {
    if |items| == 0 then Some([])
    else if !items[0].JStr? then None
    else
      var rest := StringItems(items[1..]);
      if rest.None? then
        assert !forall i :: 0 <= i < |items| - 1 ==> items[1..][i].JStr?;
        None
      else Some([items[0].s] + rest.value)
  }

  /** A list of strings as the JSON array that carries it. */
  function StringsJson(xs: seq<string>): (r: seq<Json>)
    ensures |r| == |xs| && forall i :: 0 <= i < |xs| ==> r[i] == JStr(xs[i])
  {
    if |xs| == 0 then [] else [JStr(xs[0])] + StringsJson(xs[1..])
  }

  /** The text of one decoded sentence: `None` when `.strip()` cannot be called on it. */
  function SentenceText(fields: seq<Field>): (r: Option<string>)
    ensures r.Some? <==> GetDefault(fields, "text", JStr("")).JStr?
    ensures r.Some? ==> r == Some(GetDefault(fields, "text", JStr("")).s)
  {
    var t := GetDefault(fields, "text", JStr(""));
    if t.JStr? then Some(t.s) else None
  }

  /** `max(1, min(5, s.get("difficulty", level)))`. */
  function DifficultyOf(fields: seq<Field>, level: int): Option<int> {
    ClampJson(GetDefault(fields, "difficulty", JInt(level)))
  }

  /** `s.get("focus", ["reading"])`, validated as a `list[str]`. */
  function FocusOf(fields: seq<Field>): Option<seq<string>> {
    StringList(GetDefault(fields, "focus", JArr(StringsJson(FallbackFocus))))
  }

  /**
   * One element of the `sentences` list: skipped (`Some([])`) when its text is
   * blank, one entry when it is well formed, and `None` when evaluating it raises.
   */
  function SentenceOf(item: Json, level: int): (r: Option<seq<SentenceEntry>>)
    ensures r.Some? ==> |r.value| <= 1
    ensures r.Some? && |r.value| == 1 ==> (ValidSentenceEntry(r.value[0]) && !AllIn(r.value[0].text, PySpace)
      && item.JObj? && GetDefault(item.fields, "text", JStr("")) == JStr(r.value[0].text))
    ensures !item.JObj? || SentenceText(item.fields).None? ==> r.None?
    ensures item.JObj? && SentenceText(item.fields).Some? && Strip(SentenceText(item.fields).value) == "" ==>
      r == Some([])
    ensures item.JObj? && SentenceText(item.fields).Some? && Strip(SentenceText(item.fields).value) != "" ==>
      (r.Some? <==> DifficultyOf(item.fields, level).Some? && FocusOf(item.fields).Some?)
    ensures r.Some? && r.value != [] ==> r.value == [SentenceEntry(SentenceText(item.fields).value,
      DifficultyOf(item.fields, level).value, FocusOf(item.fields).value)]
    ensures r.Some? && r.value != [] && Get(item.fields, "difficulty").None? ==> r.value[0].difficulty == Clamp(level)
    ensures r.Some? && r.value != [] && Get(item.fields, "focus").None? ==> r.value[0].focus == FallbackFocus
  {
    if !item.JObj? then None
    else
      var text := SentenceText(item.fields);
      if text.None? then None
      else if Strip(text.value) == "" then Some([])
      else
        TrimEmptyIff(text.value, PySpace);
        var difficulty := DifficultyOf(item.fields, level);
        var focus := FocusOf(item.fields);
        if difficulty.None? || focus.None? then None
        else Some([SentenceEntry(text.value, difficulty.value, focus.value)])
  }

  /**
   * The comprehension over the elements: `None` as soon as one element raises,
   * otherwise the entries of the elements in order (`SentencesOfAppend`).
   */
  function SentencesOf(items: seq<Json>, level: int): (r: Option<seq<SentenceEntry>>)
    ensures r.Some? <==> forall i :: 0 <= i < |items| ==> SentenceOf(items[i], level).Some?
    ensures |items| == 1 ==> r == SentenceOf(items[0], level)
    ensures r.Some? ==> |r.value| <= |items|
    ensures r.Some? ==> forall i :: 0 <= i < |r.value| ==> ValidSentenceEntry(r.value[i]) && !AllIn(r.value[i].text, PySpace)
  {
    if |items| == 0 then Some([])
    else
      var head := SentenceOf(items[0], level);
      var rest := SentencesOf(items[1..], level);
      assert forall i :: 0 < i < |items| ==> items[i] == items[1..][i - 1];
      if head.None? || rest.None? then None
      else
        assert |items| == 1 ==> rest == Some([]) && head.value + [] == head.value;
        Some(head.value + rest.value)
  }

  /** The comprehension over two runs of elements is the two comprehensions, joined. */
  lemma {:induction false} SentencesOfAppend(a: seq<Json>, b: seq<Json>, level: int)
    ensures SentencesOf(a + b, level) ==
      (if SentencesOf(a, level).Some? && SentencesOf(b, level).Some?
       then Some(SentencesOf(a, level).value + SentencesOf(b, level).value) else None)
    decreases |a|
  {
    if |a| > 0 {
      assert (a + b)[0] == a[0] && (a + b)[1..] == a[1..] + b;
      SentencesOfAppend(a[1..], b, level);
      var h := SentenceOf(a[0], level);
      if h.Some? && SentencesOf(a[1..], level).Some? && SentencesOf(b, level).Some? {
        assert h.value + (SentencesOf(a[1..], level).value + SentencesOf(b, level).value)
          == (h.value + SentencesOf(a[1..], level).value) + SentencesOf(b, level).value;
      }
    } else {
      assert a + b == b;
      assert SentencesOf(a, level) == Some([]);
      if SentencesOf(b, level).Some? {
        assert [] + SentencesOf(b, level).value == SentencesOf(b, level).value;
      }
    }
  }

  /**
   * What iterating `data.get("sentences", [])` goes over: the elements of a list,
   * nothing for a missing key, an empty object or an empty string, and a failure
   * for every other value (the keys of an object and the characters of a string
   * have no `.get`, and the scalars are not iterable).
   */
  function SentenceItems(data: seq<Field>): (r: Option<seq<Json>>)
    ensures Get(data, "sentences").None? ==> r == Some([])
    ensures r.Some? && r.value != [] ==> Get(data, "sentences") == Some(JArr(r.value))
  {
    var v := Get(data, "sentences");
    if v.None? then Some([])
    else match v.value
      case JArr(items) => Some(items)
      case JObj(fields) => if fields == [] then Some([]) else None
      case JStr(s) => if s == "" then Some([]) else None
      case _ => None
  }

  /** The `sentences` of a decoded reply, or `None` when building them raises. */
  function SentencesField(data: seq<Field>, level: int): Option<seq<SentenceEntry>> {
    var items := SentenceItems(data);
    if items.None? then None else SentencesOf(items.value, level)
  }

  /** `max(1, min(5, data.get("overall_difficulty", level)))`. */
  function OverallOf(data: seq<Field>, level: int): Option<int> {
    ClampJson(GetDefault(data, "overall_difficulty", JInt(level)))
  }

  /** `data.get("focus_summary", ["reading", "grammar", "vocabulary"])`, validated as a `list[str]`. */
  function FocusSummaryOf(data: seq<Field>): Option<seq<string>> {
    StringList(GetDefault(data, "focus_summary", JArr(StringsJson(DefaultFocusSummary))))
  }

  /** The analysis built from the decoded reply, or `None` when building it raises. */
  function AnalysisOf(data: Json, level: int): (r: Option<SupervisorAnalysis>)
    ensures r.Some? ==> ValidSupervisorAnalysis(r.value)
    ensures r.Some? <==> (data.JObj? && SentencesField(data.fields, level).Some?
      && OverallOf(data.fields, level).Some? && FocusSummaryOf(data.fields).Some?)
    ensures r.Some? ==> r.value.sentences == SentencesField(data.fields, level).value
    ensures r.Some? ==> r.value.overallDifficulty == OverallOf(data.fields, level).value
    ensures r.Some? ==> r.value.focusSummary == FocusSummaryOf(data.fields).value
    ensures r.Some? && Get(data.fields, "overall_difficulty").None? ==> r.value.overallDifficulty == Clamp(level)
    ensures r.Some? && Get(data.fields, "overall_difficulty") == Some(JInt(r.value.overallDifficulty)) ==>
      InLevelRange(r.value.overallDifficulty)
    ensures r.Some? && Get(data.fields, "focus_summary").None? ==> r.value.focusSummary == DefaultFocusSummary
  {
    if !data.JObj? then None
    else
      var sentences := SentencesField(data.fields, level);
      var overall := OverallOf(data.fields, level);
      var focus := FocusSummaryOf(data.fields);
      if sentences.None? || overall.None? || focus.None? then None
      else
        StringListOfStrings(DefaultFocusSummary);
        Some(SupervisorAnalysis(sentences.value, overall.value, focus.value))
  }

  lemma StringListOfStrings(xs: seq<string>)
    ensures StringList(JArr(StringsJson(xs))) == Some(xs)
  {
    var js := StringsJson(xs);
    assert forall i :: 0 <= i < |js| ==> js[i].JStr?;
    var r := StringList(JArr(js));
    forall i | 0 <= i < |xs|
      ensures r.value[i] == xs[i]
    {
      assert js[i] == JStr(r.value[i]);
    }
    assert r.value == xs;
  }

  /** Looking up each key of a three-member object with distinct keys. */
  lemma GetOfThree(k0: string, v0: Json, k1: string, v1: Json, k2: string, v2: Json)
    requires k0 != k1 && k0 != k2 && k1 != k2
    ensures Get([Field(k0, v0), Field(k1, v1), Field(k2, v2)], k0) == Some(v0)
    ensures Get([Field(k0, v0), Field(k1, v1), Field(k2, v2)], k1) == Some(v1)
    ensures Get([Field(k0, v0), Field(k1, v1), Field(k2, v2)], k2) == Some(v2)
  {
    var fs := [Field(k0, v0), Field(k1, v1), Field(k2, v2)];
    var two := [Field(k0, v0), Field(k1, v1)];
    var one := [Field(k0, v0)];
    assert fs[..2] == two && two[..1] == one;
    assert Get(one, k0) == Some(v0);
    assert Get(two, k0) == Get(one, k0);
    assert Get(fs, k0) == Get(two, k0);
    assert Get(fs, k1) == Get(two, k1);
  }

  /** A sentence entry written as the reply's JSON object: text, difficulty and focus. */
  function SentenceJson(e: SentenceEntry): Json {
    JObj([Field("text", JStr(e.text)), Field("difficulty", JInt(e.difficulty)),
          Field("focus", JArr(StringsJson(e.focus)))])
  }

  function SentencesJson(es: seq<SentenceEntry>): (r: seq<Json>)
    ensures |r| == |es| && forall i :: 0 <= i < |es| ==> r[i] == SentenceJson(es[i])
  {
    if |es| == 0 then [] else [SentenceJson(es[0])] + SentencesJson(es[1..])
  }

  /** An analysis written as the JSON object the prompt asks the model for. */
  function AnalysisJson(a: SupervisorAnalysis): Json {
    JObj([Field("sentences", JArr(SentencesJson(a.sentences))),
          Field("overall_difficulty", JInt(a.overallDifficulty)),
          Field("focus_summary", JArr(StringsJson(a.focusSummary)))])
  }

  /** A valid entry with non-blank text is read back from its JSON object as itself. */
  lemma SentenceRoundTrip(e: SentenceEntry, level: int)
    requires ValidSentenceEntry(e) && Strip(e.text) != ""
    ensures SentenceOf(SentenceJson(e), level) == Some([e])
  {
    GetOfThree("text", JStr(e.text), "difficulty", JInt(e.difficulty), "focus", JArr(StringsJson(e.focus)));
    StringListOfStrings(e.focus);
  }

  lemma {:induction false} SentencesRoundTrip(es: seq<SentenceEntry>, level: int)
    requires forall i :: 0 <= i < |es| ==> ValidSentenceEntry(es[i]) && Strip(es[i].text) != ""
    ensures SentencesOf(SentencesJson(es), level) == Some(es)
    decreases |es|
  {
    if |es| > 0 {
      var js := SentencesJson(es);
      assert js == [js[0]] + SentencesJson(es[1..]);
      SentenceRoundTrip(es[0], level);
      SentencesRoundTrip(es[1..], level);
      SentencesOfAppend([js[0]], SentencesJson(es[1..]), level);
      assert [es[0]] + es[1..] == es;
    }
  }

  /**
   * The partner of `AnalysisOf`: a valid analysis whose sentences all have text,
   * written in the reply format, is read back as exactly that analysis at every level.
   */
  lemma AnalysisRoundTrip(a: SupervisorAnalysis, level: int)
    requires ValidSupervisorAnalysis(a)
    requires forall i :: 0 <= i < |a.sentences| ==> Strip(a.sentences[i].text) != ""
    ensures AnalysisOf(AnalysisJson(a), level) == Some(a)
  {
    AnalysisJsonSentences(a, level);
    AnalysisJsonOverall(a, level);
    AnalysisJsonFocus(a);
  }

  lemma AnalysisJsonSentences(a: SupervisorAnalysis, level: int)
    requires forall i :: 0 <= i < |a.sentences| ==> ValidSentenceEntry(a.sentences[i]) && Strip(a.sentences[i].text) != ""
    ensures SentencesField(AnalysisJson(a).fields, level) == Some(a.sentences)
  {
    AnalysisSentenceItems(a);
    SentencesRoundTrip(a.sentences, level);
  }

  lemma AnalysisSentenceItems(a: SupervisorAnalysis)
    ensures SentenceItems(AnalysisJson(a).fields) == Some(SentencesJson(a.sentences))
  {
    GetOfThree("sentences", JArr(SentencesJson(a.sentences)), "overall_difficulty", JInt(a.overallDifficulty),
      "focus_summary", JArr(StringsJson(a.focusSummary)));
  }

  lemma AnalysisJsonOverall(a: SupervisorAnalysis, level: int)
    requires InLevelRange(a.overallDifficulty)
    ensures OverallOf(AnalysisJson(a).fields, level) == Some(a.overallDifficulty)
  {
    GetOfThree("sentences", JArr(SentencesJson(a.sentences)), "overall_difficulty", JInt(a.overallDifficulty),
      "focus_summary", JArr(StringsJson(a.focusSummary)));
  }

  lemma AnalysisJsonFocus(a: SupervisorAnalysis)
    ensures FocusSummaryOf(AnalysisJson(a).fields) == Some(a.focusSummary)
  {
    GetOfThree("sentences", JArr(SentencesJson(a.sentences)), "overall_difficulty", JInt(a.overallDifficulty),
      "focus_summary", JArr(StringsJson(a.focusSummary)));
    StringListOfStrings(a.focusSummary);
  }

  /**
   * The JSON candidate in a reply: the slice from the first `{` through the
   * last `}`, empty when the last `}` comes before the first `{`, and `None`
   * when either brace is missing.
   */
  function JsonCandidate(content: string): (r: Option<string>)
    ensures r.None? <==> ('{' !in content || '}' !in content)
    ensures r.Some? && r.value != [] ==> (r.value[0] == '{' && r.value[|r.value| - 1] == '}'
      && '{' !in content[..Find(content, '{')] && '}' !in content[RFind(content, '}') + 1..])
    ensures r.Some? ==> (r.value == [] <==> RFind(content, '}') < Find(content, '{'))
  {
    var start := Find(content, '{');
    var end := RFind(content, '}') + 1;
    if start == -1 || end == 0 then None
    else if end <= start then Some("")
    else Some(content[start..end])
  }

  /** The model configuration the node asks for. */
  function SupervisorLlm(settings: Result<Config.Settings, string>): Result<Llm.LlmConfig, string>
    requires settings.Ok?
  {
    Llm.GetLlm(settings.value.supervisorModel, settings, Some(SupervisorMaxTokens), SupervisorTimeout)
  }

  /**
   * Everything inside the `try`: settings, the model configuration, the reply
   * and its decoding. `None` is any exception, which the node turns into the fallback.
   */
  function Attempt(level: int, settings: Result<Config.Settings, string>, reply: Result<string, string>,
                   loads: string -> Option<Json>): (r: Option<SupervisorAnalysis>)
    ensures r.Some? ==> ValidSupervisorAnalysis(r.value)
    ensures r.Some? <==> (settings.Ok? && SupervisorLlm(settings).Ok? && reply.Ok?
      && JsonCandidate(reply.value).Some? && loads(JsonCandidate(reply.value).value).Some?
      && AnalysisOf(loads(JsonCandidate(reply.value).value).value, level).Some?)
    ensures r.Some? ==> r == AnalysisOf(loads(JsonCandidate(reply.value).value).value, level)
  {
    if settings.Err? then None
    else
      var llm := SupervisorLlm(settings);
      if llm.Err? || reply.Err? then None
      else
        var candidate := JsonCandidate(reply.value);
        if candidate.None? then None
        else
          var data := loads(candidate.value);
          if data.None? then None else AnalysisOf(data.value, level)
  }

  /** The node skips the pre-analysis for other tasks and for an empty text. */
  predicate Skips(s: TutorState) {
    TaskType(s) !in {"analyze", "image_process"} || InputText(s) == ""
  }

  /**
   * `supervisor_node(state)`. `settings` is what `get_settings()` gives,
   * `reply` the model's reply text or the failure of the call, and `loads`
   * stands for `json.loads`, with `None` for a decoding error. An `Err` is an
   * exception that escapes the node: only the fallback itself can raise one.
   */
  function SupervisorNode(s: TutorState, settings: Result<Config.Settings, string>, reply: Result<string, string>,
                          loads: string -> Option<Json>): (r: Result<SupervisorUpdate, string>)
    ensures Skips(s) ==> r == Ok(NoUpdate)
    ensures !Skips(s) && r.Ok? ==> r.value.Analysis? && ValidSupervisorAnalysis(r.value.analysis)
    ensures !Skips(s) && Attempt(Level(s), settings, reply, loads).Some? ==>
      r == Ok(Analysis(Attempt(Level(s), settings, reply, loads).value))
    ensures !Skips(s) ==> (r.Err? <==> Attempt(Level(s), settings, reply, loads).None? && !InLevelRange(Level(s)))
    ensures !Skips(s) && Attempt(Level(s), settings, reply, loads).None? && r.Ok? ==>
      Fallback(InputText(s), Level(s)) == Ok(r.value.analysis)
  {
    if Skips(s) then Ok(NoUpdate)
    else
      var a := Attempt(Level(s), settings, reply, loads);
      if a.Some? then Ok(Analysis(a.value))
      else
        var f := Fallback(InputText(s), Level(s));
        if f.Ok? then Ok(Analysis(f.value)) else Err(f.error)
  }

  /** A failed model call, or a reply without braces, ends in the fallback. */
  lemma FailureFallsBack(s: TutorState, settings: Result<Config.Settings, string>, reply: Result<string, string>,
                         loads: string -> Option<Json>)
    requires !Skips(s) && InLevelRange(Level(s))
    requires reply.Err? || '{' !in reply.value || '}' !in reply.value
    ensures SupervisorNode(s, settings, reply, loads) == Ok(Analysis(Fallback(InputText(s), Level(s)).value))
  {
  }

  /**
   * A reply whose JSON candidate decodes to a valid analysis, written in the
   * format the prompt asks for, makes the node return exactly that analysis.
   */
  lemma ModelAnalysisReturned(s: TutorState, settings: Result<Config.Settings, string>, reply: Result<string, string>,
                              loads: string -> Option<Json>, a: SupervisorAnalysis)
    requires !Skips(s) && settings.Ok? && SupervisorLlm(settings).Ok? && reply.Ok?
    requires JsonCandidate(reply.value).Some? && loads(JsonCandidate(reply.value).value) == Some(AnalysisJson(a))
    requires ValidSupervisorAnalysis(a)
    requires forall i :: 0 <= i < |a.sentences| ==> Strip(a.sentences[i].text) != ""
    ensures SupervisorNode(s, settings, reply, loads) == Ok(Analysis(a))
  {
    AnalysisRoundTrip(a, Level(s));
  }
}
