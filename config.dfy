/**
 * Application settings: their defaults, the comma-separated CORS origin list,
 * and the lazily built process-wide settings instance.
 */
module Config {
  import opened Wrappers
  import opened Text

  datatype Settings = Settings(
    openaiApiKey: string,
    glmApiKey: Option<string>,
    environment: string,
    logLevel: string,
    supervisorModel: string,
    readingModel: string,
    grammarModel: string,
    vocabularyModel: string,
    ocrModel: string,
    ocrDetail: string,
    ocrMaxTokens: int,
    host: string,
    port: int,
    corsOriginsRaw: string,
    sessionTtlHours: int)

  const DefaultModel: string := "gpt-4o-mini"
  const DefaultCorsOriginsRaw: string := "http://localhost:3000"

  /**
   * The settings when the environment sets only the required OpenAI key:
   * every other field takes its declared default, and the GLM key is absent.
   */
  function DefaultSettings(openaiApiKey: string): (s: Settings)
    ensures s.openaiApiKey == openaiApiKey && s.glmApiKey == None
    ensures s.supervisorModel == s.readingModel == s.grammarModel == s.vocabularyModel == s.ocrModel == DefaultModel
    ensures s.host == "0.0.0.0" && s.port == 8000 && s.sessionTtlHours == 24
    ensures s.corsOriginsRaw == DefaultCorsOriginsRaw
  {
    Settings(openaiApiKey, None, "development", "INFO", DefaultModel, DefaultModel, DefaultModel,
      DefaultModel, DefaultModel, "low", 2048, "0.0.0.0", 8000, DefaultCorsOriginsRaw, 24)
  }

  lemma TrimChars(s: string, k: CharSet)
    ensures forall c :: c in Trim(s, k) ==> c in s
  {
    var a := TrimStart(s, k);
    TrimStartSuffix(s, k);
    TrimEndPrefix(a, k);
    assert forall c :: c in a ==> c in s;
    assert forall c :: c in TrimEnd(a, k) ==> c in a;
  }

  /** The stripped, non-blank pieces, in order. */
  function StrippedNonBlank(pieces: seq<string>): seq<string>
  {
    if |pieces| == 0 then []
    else (if Strip(pieces[0]) != "" then [Strip(pieces[0])] else []) + StrippedNonBlank(pieces[1..])
  }

  /** Every kept piece is non-empty and already stripped. */
  lemma {:induction false} StrippedNonBlankClean(pieces: seq<string>)
    ensures forall o :: o in StrippedNonBlank(pieces) ==> o != "" && Strip(o) == o
  {
    if |pieces| > 0 {
      StrippedNonBlankClean(pieces[1..]);
      TrimIdempotent(pieces[0], PySpace);
    }
  }

  /** Stripping introduces no character, so no kept piece has a separator when no piece had one. */
  lemma {:induction false} StrippedNonBlankWithout(pieces: seq<string>, c: char)
    requires forall i :: 0 <= i < |pieces| ==> c !in pieces[i]
    ensures forall o :: o in StrippedNonBlank(pieces) ==> c !in o
  {
    if |pieces| > 0 {
      StrippedNonBlankWithout(pieces[1..], c);
      TrimChars(pieces[0], PySpace);
    }
  }

  /** The `CORS_ORIGINS` property: the comma-separated pieces, trimmed, with blank ones dropped. */
  function CorsOrigins(raw: string): (r: seq<string>)
    ensures forall o :: o in r ==> o != "" && Strip(o) == o && ',' !in o
  {
    var pieces := Split(raw, ',');
    StrippedNonBlankClean(pieces);
    StrippedNonBlankWithout(pieces, ',');
    StrippedNonBlank(pieces)
  }

  /** Already stripped, non-blank pieces pass through unchanged. */
  lemma {:induction false} StrippedNonBlankKeeps(xs: seq<string>)
    requires forall o :: o in xs ==> o != "" && Strip(o) == o
    ensures StrippedNonBlank(xs) == xs
  {
    if |xs| > 0 {
      assert xs[0] in xs;
      assert forall o :: o in xs[1..] ==> o in xs;
      StrippedNonBlankKeeps(xs[1..]);
    }
  }

  /** Writing the parsed list back as a comma-separated value and parsing it again gives the same list. */
  lemma CorsOriginsIdempotent(raw: string)
    ensures CorsOrigins(Join(CorsOrigins(raw), ",")) == CorsOrigins(raw)
  {
    var r := CorsOrigins(raw);
    assert "," == [','];
    if r == [] {
      assert Join(r, ",") == "";
      assert Split("", ',') == [""];
      TrimNoEdge("", PySpace);
    } else {
      assert forall i :: 0 <= i < |r| ==> r[i] in r;
      SplitJoin(r, ',');
      StrippedNonBlankKeeps(r);
    }
  }

  /** A single origin with no comma and no surrounding space parses to itself alone. */
  lemma SingleOrigin(raw: string)
    requires |raw| > 0 && ',' !in raw
    requires !IsPySpace(raw[0]) && !IsPySpace(raw[|raw| - 1])
    ensures CorsOrigins(raw) == [raw]
  {
    SplitNoSep(raw, ',');
    TrimNoEdge(raw, PySpace);
    assert StrippedNonBlank([raw]) == [raw] + StrippedNonBlank([]);
  }

  /** The default raw value names the single local front-end origin. */
  lemma DefaultCorsOrigins()
    ensures CorsOrigins(DefaultCorsOriginsRaw) == ["http://localhost:3000"]
  {
    var raw := DefaultCorsOriginsRaw;
    assert forall i :: 0 <= i < |raw| ==> raw[i] != ',';
    SingleOrigin(raw);
  }

  /**
   * The process-wide settings slot behind `get_settings`: empty until the
   * first call, which builds the settings from the environment.
   */
  class SettingsHolder {
    var current: Option<Settings>

    constructor ()
      ensures current == None
    {
      current := None;
    }

    /**
     * `get_settings()`. `fromEnvironment` is what building the settings from
     * the environment would give now; it is consulted only while the slot is
     * empty, and a failed build leaves the slot empty.
     */
    method GetSettings(fromEnvironment: Result<Settings, string>) returns (r: Result<Settings, string>)
      modifies this
      ensures old(current).Some? ==> r == Ok(old(current).value) && current == old(current)
      ensures old(current).None? ==> r == fromEnvironment
      ensures old(current).None? ==> current == (if fromEnvironment.Ok? then Some(fromEnvironment.value) else None)
    {
      if current.None? {
        if fromEnvironment.Err? {
          return fromEnvironment;
        }
        current := Some(fromEnvironment.value);
      }
      r := Ok(current.value);
    }
  }
}
