/**
 * The comprehension-level instructions and the process-wide cache that holds
 * the `levels` table of the instruction file once it has been read.
 */
module Prompts {
  import opened Wrappers
  import opened Text
  import opened Schemas

  /** One entry of the `levels` table; `instructions` may be absent. */
  datatype LevelEntry = LevelEntry(instructions: Option<string>)

  /**
   * What `data.get("levels", {})` yields on the loaded file: the table, or
   * `None` when the file sets `levels` to null. A missing key gives the empty table.
   */
  datatype LevelsData = NoLevelsKey | NullLevels | Levels(table: map<int, LevelEntry>)

  function InvalidLevelMessage(level: int): string {
    "Invalid comprehension level: " + IntToString(level) + ". Must be 1-5."
  }

  /** The cache slot after a load: `None` only when the file set `levels` to null. */
  function CacheFromData(d: LevelsData): (c: Option<map<int, LevelEntry>>)
    ensures c.None? <==> d.NullLevels?
    ensures d.NoLevelsKey? ==> c == Some(map[])
    ensures d.Levels? ==> c == Some(d.table)
  {
    match d
    case NoLevelsKey => Some(map[])
    case NullLevels => None
    case Levels(t) => Some(t)
  }

  /** The lookup against a loaded cache slot. */
  function Lookup(cache: Option<map<int, LevelEntry>>, level: int): (r: Result<string, string>)
    ensures r.Err? <==> (cache.None? || level !in cache.value)
    ensures r.Err? ==> r.error == InvalidLevelMessage(level)
    ensures r.Ok? ==> (cache.value[level].instructions.Some? ==> r.value == cache.value[level].instructions.value)
    ensures r.Ok? ==> (cache.value[level].instructions.None? ==> r.value == "")
  {
    if cache.None? || level !in cache.value then Err(InvalidLevelMessage(level))
    else
      var e := cache.value[level];
      Ok(if e.instructions.Some? then e.instructions.value else "")
  }

  /** With no `levels` key every level is refused. */
  lemma NoLevelsKeyRefusesAll(level: int)
    ensures Lookup(CacheFromData(NoLevelsKey), level) == Err(InvalidLevelMessage(level))
  {
  }

  /**
   * The holder of `_level_instructions_cache`. `loads` counts how often the
   * instruction file has been read.
   */
  class LevelInstructionCache {
    var cache: Option<map<int, LevelEntry>>
    ghost var loads: nat

    constructor ()
      ensures cache == None && loads == 0
    {
      cache := None;
      loads := 0;
    }

    /**
     * `get_level_instructions(level)`. `load` is what reading the instruction
     * file would give now: its `levels` data, or the error reading it raises.
     * The file is read only while the slot is empty.
     */
    method GetLevelInstructions(level: int, load: Result<LevelsData, string>) returns (r: Result<string, string>)
      modifies this
      ensures old(cache).Some? ==> cache == old(cache) && loads == old(loads) && r == Lookup(cache, level)
      ensures old(cache).None? ==> loads == old(loads) + 1
      ensures old(cache).None? && load.Err? ==> cache == None && r == Err(load.error)
      ensures old(cache).None? && load.Ok? ==> cache == CacheFromData(load.value) && r == Lookup(cache, level)
    {
      if cache.None? {
        loads := loads + 1;
        if load.Err? {
          return Err(load.error);
        }
        cache := CacheFromData(load.value);
      }
      r := Lookup(cache, level);
    }
  }

  /** Once a table has been cached, a second call reads nothing and answers from the same table. */
  method LoadedOnce(level1: int, level2: int, table: map<int, LevelEntry>, load2: Result<LevelsData, string>)
    returns (r1: Result<string, string>, r2: Result<string, string>)
    ensures r1 == Lookup(Some(table), level1) && r2 == Lookup(Some(table), level2)
  {
    var c := new LevelInstructionCache();
    r1 := c.GetLevelInstructions(level1, Ok(Levels(table)));
    r2 := c.GetLevelInstructions(level2, load2);
    assert c.loads == 1;
  }

  /**
   * The arguments an agent passes to `render_prompt`: the template file and
   * its fields. Filling them into the template is not modelled.
   */
  datatype Prompt = Prompt(
    template: string, text: string, level: int, levelInstructions: string, supervisorContext: string)

  const ContextHeading: string := "\n\n[사전 분석]\n전체 난이도: "
  const FocusLabel: string := "/5\n학습 포커스: "

  /**
   * The supervisor-context block the grammar and vocabulary agents add to
   * their prompts: empty without a pre-analysis, otherwise the overall
   * difficulty out of 5 and the comma-joined focus summary.
   */
  function SupervisorContext(analysis: Option<SupervisorAnalysis>): (r: string)
    ensures analysis.None? <==> r == ""
    ensures analysis.Some? ==> Contains(r, IntToString(analysis.value.overallDifficulty) + "/5")
    ensures analysis.Some? ==> var focus := Join(analysis.value.focusSummary, ", ");
      |focus| <= |r| && r[|r| - |focus|..] == focus
  {
    if analysis.None? then ""
    else
      var d := IntToString(analysis.value.overallDifficulty);
      var r := ContextHeading + d + FocusLabel + Join(analysis.value.focusSummary, ", ");
      assert r[|ContextHeading|..|ContextHeading| + |d + "/5"|] == d + "/5";
      ContainsAt(r, d + "/5", |ContextHeading|);
      r
  }
}
