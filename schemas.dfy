/**
 * The request and result records of the API and the field constraints
 * pydantic enforces on them. A validator returns the record, or every
 * constraint the input breaks, named by field and by pydantic's error type.
 */
module Schemas {
  import opened Wrappers
  import opened Json

  const MinTextLength: nat := 10
  const MaxTextLength: nat := 5000
  const MinLevel: int := 1
  const MaxLevel: int := 5

  /** The MIME types `AnalyzeImageRequest.mime_type` admits, in declaration order. */
  const ImageMimeTypes: seq<string> := ["image/jpeg", "image/png", "image/webp"]

  datatype AnalyzeRequest = AnalyzeRequest(text: string, level: int)
  datatype AnalyzeImageRequest = AnalyzeImageRequest(imageData: string, mimeType: string, level: int)
  datatype ChatRequest = ChatRequest(sessionId: string, question: string, level: int)

  datatype SentenceEntry = SentenceEntry(text: string, difficulty: int, focus: seq<string>)
  datatype SupervisorAnalysis =
    SupervisorAnalysis(sentences: seq<SentenceEntry>, overallDifficulty: int, focusSummary: seq<string>)

  datatype VocabularyWordEntry = VocabularyWordEntry(word: string, content: string)
  datatype ReadingResult = ReadingResult(content: string)
  datatype GrammarResult = GrammarResult(content: string)
  datatype VocabularyResult = VocabularyResult(words: seq<VocabularyWordEntry>)

  datatype AnalyzeResponse = AnalyzeResponse(
    sessionId: string,
    reading: Option<ReadingResult>,
    grammar: Option<GrammarResult>,
    vocabulary: Option<VocabularyResult>)

  /** pydantic's error types for the constraints used here. */
  datatype ErrorType = StringTooShort | StringTooLong | GreaterThanEqual | LessThanEqual | LiteralError

  datatype FieldError = FieldError(field: string, kind: ErrorType)

  predicate InLevelRange(level: int) { MinLevel <= level <= MaxLevel }

  /** `Field(ge=1, le=5)` on an integer field. */
  function LevelErrors(field: string, level: int): (errs: seq<FieldError>)
    ensures errs == [] <==> InLevelRange(level)
    ensures forall e :: e in errs ==> e.field == field
    ensures level < MinLevel ==> errs == [FieldError(field, GreaterThanEqual)]
    ensures level > MaxLevel ==> errs == [FieldError(field, LessThanEqual)]
  {
    if level < MinLevel then [FieldError(field, GreaterThanEqual)]
    else if level > MaxLevel then [FieldError(field, LessThanEqual)]
    else []
  }

  /** `Field(min_length=10, max_length=5000)`; the length is counted in code points. */
  function TextErrors(field: string, text: string): (errs: seq<FieldError>)
    ensures errs == [] <==> MinTextLength <= |text| <= MaxTextLength
    ensures forall e :: e in errs ==> e.field == field
    ensures |text| < MinTextLength ==> errs == [FieldError(field, StringTooShort)]
    ensures |text| > MaxTextLength ==> errs == [FieldError(field, StringTooLong)]
  {
    if |text| < MinTextLength then [FieldError(field, StringTooShort)]
    else if |text| > MaxTextLength then [FieldError(field, StringTooLong)]
    else []
  }

  function ValidateAnalyzeRequest(text: string, level: int): (r: Result<AnalyzeRequest, seq<FieldError>>)
    ensures r.Ok? <==> MinTextLength <= |text| <= MaxTextLength && InLevelRange(level)
    ensures r.Ok? ==> r.value == AnalyzeRequest(text, level)
    ensures r.Err? ==> r.error == TextErrors("text", text) + LevelErrors("level", level)
  {
    var errs := TextErrors("text", text) + LevelErrors("level", level);
    if errs == [] then Ok(AnalyzeRequest(text, level)) else Err(errs)
  }

  function ValidateAnalyzeImageRequest(imageData: string, mimeType: string, level: int)
    : (r: Result<AnalyzeImageRequest, seq<FieldError>>)
    ensures r.Ok? <==> mimeType in ImageMimeTypes && InLevelRange(level)
    ensures r.Ok? ==> r.value == AnalyzeImageRequest(imageData, mimeType, level)
    ensures r.Err? ==> (FieldError("mime_type", LiteralError) in r.error <==> mimeType !in ImageMimeTypes)
    ensures r.Err? ==> forall e :: e in r.error ==> e.field in {"mime_type", "level"}
  {
    var errs := (if mimeType in ImageMimeTypes then [] else [FieldError("mime_type", LiteralError)])
      + LevelErrors("level", level);
    if errs == [] then Ok(AnalyzeImageRequest(imageData, mimeType, level)) else Err(errs)
  }

  /** Both strings are required but unconstrained, so only the level can be refused. */
  function ValidateChatRequest(sessionId: string, question: string, level: int)
    : (r: Result<ChatRequest, seq<FieldError>>)
    ensures r.Ok? <==> InLevelRange(level)
    ensures r.Ok? ==> r.value == ChatRequest(sessionId, question, level)
    ensures r.Err? ==> forall e :: e in r.error ==> e.field == "level"
  {
    var errs := LevelErrors("level", level);
    if errs == [] then Ok(ChatRequest(sessionId, question, level)) else Err(errs)
  }

  predicate ValidSentenceEntry(e: SentenceEntry) { InLevelRange(e.difficulty) }

  predicate ValidSupervisorAnalysis(a: SupervisorAnalysis) {
    InLevelRange(a.overallDifficulty) && forall i :: 0 <= i < |a.sentences| ==> ValidSentenceEntry(a.sentences[i])
  }

  /** `SentenceEntry(text=…, difficulty=…)` with `focus` left to its default. */
  function NewSentenceEntry(text: string, difficulty: int): (e: SentenceEntry)
    ensures e.focus == [] && e.text == text && e.difficulty == difficulty
    ensures ValidSentenceEntry(e) <==> InLevelRange(difficulty)
  {
    SentenceEntry(text, difficulty, [])
  }

  /** `SupervisorAnalysis()` with every field at its default. */
  function DefaultSupervisorAnalysis(): (a: SupervisorAnalysis)
    ensures a.sentences == [] && a.overallDifficulty == 3 && a.focusSummary == []
    ensures ValidSupervisorAnalysis(a)
  {
    SupervisorAnalysis([], 3, [])
  }

  /** `AnalyzeResponse(session_id=…)`: the three results default to None. */
  function NewAnalyzeResponse(sessionId: string): (r: AnalyzeResponse)
    ensures r.sessionId == sessionId && r.reading.None? && r.grammar.None? && r.vocabulary.None?
  {
    AnalyzeResponse(sessionId, None, None, None)
  }

  /** `VocabularyResult()`: the word list defaults to empty. */
  function EmptyVocabularyResult(): (r: VocabularyResult)
    ensures r.words == []
  {
    VocabularyResult([])
  }

  function WordEntryJson(e: VocabularyWordEntry): Json {
    JObj([Field("word", JStr(e.word)), Field("content", JStr(e.content))])
  }

  function WordEntriesJson(ws: seq<VocabularyWordEntry>): (r: seq<Json>)
    ensures |r| == |ws|
    ensures forall i :: 0 <= i < |ws| ==> r[i] == WordEntryJson(ws[i])
  {
    if |ws| == 0 then [] else [WordEntryJson(ws[0])] + WordEntriesJson(ws[1..])
  }

  /** `VocabularyResult.model_dump()`: `{"words": [{"word": …, "content": …}, …]}`. */
  function VocabularyResultFields(v: VocabularyResult): seq<Field> {
    [Field("words", JArr(WordEntriesJson(v.words)))]
  }
}
