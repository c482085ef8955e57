/**
 * The comprehension-level hook of the front end: the current level, the guarded
 * setter, and the `tutor_level` entry of local storage that mirrors the level.
 */
module LevelConfig {
  import opened Wrappers
  import opened Text
  import opened Constants

  const InitialLevel: int := 3

  predicate InRange(level: int) { 1 <= level <= 5 }

  /**
   * `parseInt(s, 10)`: leading white space skipped, an optional sign, then the
   * longest run of decimal digits; `None` stands for NaN when there is no digit.
   */
  function JsParseInt(s: string): (r: Option<int>)
    ensures r.Some? ==> exists k :: 0 <= k < |s| && IsDigit(s[k])
  {
    var t := TrimStart(s, JsSpace);
    var signed := |t| > 0 && (t[0] == '-' || t[0] == '+');
    var u := if signed then t[1..] else t;
    var n := DigitRun(u);
    if n == 0 then None
    else
      assert u[0] == s[|s| - |u|] by {
        TrimStartSuffix(s, JsSpace);
        assert t[|t| - |u|] == s[|s| - |u|];
      }
      var v: int := DecimalValue(u[..n]);
      Some(if signed && t[0] == '-' then -v else v)
  }

  /** Reading back what `String(n)` wrote gives `n`. */
  lemma JsParseIntOfNatToString(n: nat)
    ensures JsParseInt(NatToString(n)) == Some(n)
  {
    var s := NatToString(n);
    assert IsDigit(s[0]);
    TrimStartNoEdge(s, JsSpace);
    DigitRunAll(s);
    assert s[..|s|] == s;
    DecimalOfNatToString(n);
  }

  /**
   * The level the mount effect restores: a stored value that is non-empty and
   * parses to an integer in 1..5, else the initial level.
   */
  function RestoredLevel(stored: Option<string>): (l: int)
    ensures InRange(l)
    ensures (stored.None? || stored.value == "") ==> l == InitialLevel
    ensures (stored.Some? && stored.value != "" && JsParseInt(stored.value).Some?
      && InRange(JsParseInt(stored.value).value)) ==> l == JsParseInt(stored.value).value
    ensures (stored.Some? && (JsParseInt(stored.value).None? || !InRange(JsParseInt(stored.value).value)))
      ==> l == InitialLevel
  {
    if stored.Some? && stored.value != "" then
      var p := JsParseInt(stored.value);
      if p.Some? && InRange(p.value) then p.value else InitialLevel
    else InitialLevel
  }

  /** A persisted level survives a reload. */
  lemma PersistedLevelRestores(level: int)
    requires InRange(level)
    ensures RestoredLevel(Some(NatToString(level))) == level
  {
    JsParseIntOfNatToString(level);
  }

  /**
   * One mounted instance of the hook. `stored` is the storage entry and
   * `writes` every value written to it, in order.
   */
  class LevelConfig {
    var level: int
    var stored: Option<string>
    var writes: seq<string>

    /** The level is always in range and the storage entry always holds it. */
    ghost predicate Valid()
      reads this
    {
      InRange(level) && stored == Some(NatToString(level))
      && |writes| > 0 && writes[|writes| - 1] == NatToString(level)
    }

    /**
     * The first render and its two effects: the restore effect schedules the
     * restored level, the persist effect writes the initial level, and the
     * re-render that follows a changed level writes that level.
     */
    constructor Mount(initialStorage: Option<string>)
      ensures level == RestoredLevel(initialStorage)
      ensures writes == [NatToString(InitialLevel)]
        + (if level != InitialLevel then [NatToString(level)] else [])
      ensures Valid()
    {
      var restored := RestoredLevel(initialStorage);
      level := InitialLevel;
      stored := Some(NatToString(InitialLevel));
      writes := [NatToString(InitialLevel)];
      if restored != InitialLevel {
        level := restored;
        stored := Some(NatToString(restored));
        writes := writes + [NatToString(restored)];
      }
    }

    /** `setLevel(newLevel)`: only levels 1..5 are taken, and only a change is written. */
    method SetLevel(newLevel: int)
      requires Valid()
      modifies this
      ensures Valid()
      ensures level == (if InRange(newLevel) then newLevel else old(level))
      ensures stored == Some(NatToString(level))
      ensures writes == old(writes) + (if level != old(level) then [NatToString(level)] else [])
    {
      if InRange(newLevel) && newLevel != level {
        level := newLevel;
        stored := Some(NatToString(newLevel));
        writes := writes + [NatToString(newLevel)];
      }
    }

    /** `levelLabel`: the label of the current level. */
    function LevelLabel(): (r: string)
      reads this
      requires Valid()
      ensures r == LevelDefinitions[level - 1].labelText
    {
      GetLevelLabel(level)
    }
  }
}
