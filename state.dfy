/**
 * The workflow state the graph nodes read. A key the nodes look up with a
 * default is an `Option`: `None` when the key is absent.
 */
module State {
  import opened Wrappers
  import opened Schemas

  datatype TutorState = TutorState(
    taskType: Option<string>,
    inputText: Option<string>,
    level: Option<int>,
    sessionId: Option<string>,
    supervisorAnalysis: Option<SupervisorAnalysis>,
    readingResult: Option<ReadingResult>,
    grammarResult: Option<GrammarResult>,
    vocabularyResult: Option<VocabularyResult>,
    vocabularyError: Option<string>)

  function GetOr<T>(o: Option<T>, default: T): T {
    if o.Some? then o.value else default
  }

  /** `state.get("task_type", "analyze")`. */
  function TaskType(s: TutorState): string { GetOr(s.taskType, "analyze") }

  /** `state.get("input_text", "")`. */
  function InputText(s: TutorState): string { GetOr(s.inputText, "") }

  /** `state.get("level", 3)`. */
  function Level(s: TutorState): int { GetOr(s.level, 3) }
}
