/** The front end's constant tables: endpoints, level definitions and default settings. */
module Constants {
  import opened Wrappers
  import opened Text

  const ApiPrefix: string := "/api/tutor"
  const AnalyzeEndpoint: string := "/api/tutor/analyze"
  const AnalyzeImageEndpoint: string := "/api/tutor/analyze-image"
  const ChatEndpoint: string := "/api/tutor/chat"

  datatype LevelDefinition = LevelDefinition(level: int, labelText: string, description: string)

  const LevelDefinitions: seq<LevelDefinition> := [
    LevelDefinition(1, "기초", "가장 쉬운 설명과 기본 단어만 사용"),
    LevelDefinition(2, "초급", "간단한 문장 구조와 일상 어휘 사용"),
    LevelDefinition(3, "중급", "표준적인 설명과 일반적인 어휘 사용"),
    LevelDefinition(4, "고급", "상세한 설명과 다양한 어휘 사용"),
    LevelDefinition(5, "심화", "전문적인 설명과 고급 어휘 사용")
  ]

  const DefaultLevel: int := 3
  const MaxFileSize: int := 10 * 1024 * 1024

  /** `Array.prototype.find` on the level field: the first definition with that level. */
  function FindLevel(defs: seq<LevelDefinition>, level: int): (r: Option<LevelDefinition>)
    ensures r.None? <==> forall i :: 0 <= i < |defs| ==> defs[i].level != level
    ensures r.Some? ==> exists i :: (0 <= i < |defs| && defs[i] == r.value && r.value.level == level
      && forall j :: 0 <= j < i ==> defs[j].level != level)
  {
    if |defs| == 0 then None
    else if defs[0].level == level then Some(defs[0])
    else
      var r := FindLevel(defs[1..], level);
      if r.Some? then
        var i :| 0 <= i < |defs[1..]| && defs[1..][i] == r.value && r.value.level == level
          && forall j :: 0 <= j < i ==> defs[1..][j].level != level;
        assert defs[i + 1] == r.value;
        assert forall j :: 0 <= j < i + 1 ==> defs[j].level != level by {
          forall j | 0 <= j < i + 1 ensures defs[j].level != level {
            if j > 0 { assert defs[j] == defs[1..][j - 1]; }
          }
        }
        r
      else
        assert forall j :: 1 <= j < |defs| ==> defs[j] == defs[1..][j - 1];
        r
  }

  /** The definitions are exactly the levels 1 to 5, in order. */
  lemma LevelsNumbered()
    ensures |LevelDefinitions| == 5
    ensures forall i :: 0 <= i < 5 ==> LevelDefinitions[i].level == i + 1
  {
  }

  /** `getLevelLabel(level)`: the label of the matching definition, or the level-3 label. */
  function GetLevelLabel(level: int): (r: string)
    ensures 1 <= level <= 5 ==> r == LevelDefinitions[level - 1].labelText
    ensures !(1 <= level <= 5) ==> r == "중급"
    ensures r != ""
  {
    var d := FindLevel(LevelDefinitions, level);
    if d.Some? && d.value.labelText != "" then d.value.labelText else LevelDefinitions[2].labelText
  }

  /** Every endpoint lies under the tutor API prefix. */
  lemma EndpointsUnderPrefix()
    ensures StartsWith(AnalyzeEndpoint, ApiPrefix)
    ensures StartsWith(AnalyzeImageEndpoint, ApiPrefix)
    ensures StartsWith(ChatEndpoint, ApiPrefix)
  {
    assert AnalyzeEndpoint[..|ApiPrefix|] == ApiPrefix;
    assert AnalyzeImageEndpoint[..|ApiPrefix|] == ApiPrefix;
    assert ChatEndpoint[..|ApiPrefix|] == ApiPrefix;
  }

  /** The default level is the middle level, labelled "중급", and the upload limit is ten mebibytes. */
  lemma DefaultSettingsValues()
    ensures 1 <= DefaultLevel <= 5 && LevelDefinitions[DefaultLevel - 1].level == DefaultLevel
    ensures GetLevelLabel(DefaultLevel) == "중급"
    ensures MaxFileSize == 10485760
  {
  }
}
