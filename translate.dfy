/**
 * Machine translation with MarianMT pipelines: identity short-cuts, the
 * language-code map, the choice of model (direct pair first, then an
 * English pivot), and "return the input on any failure". Loading a
 * pipeline and running it are oracles.
 */
module Translate {
  import opened Wrappers

  /** LANG_CODE_MAP: the supported codes map to themselves. */
  const LangCodeMap: map<string, string> :=
    map["en" := "en", "es" := "es", "fr" := "fr", "de" := "de", "zh" := "zh"]

  /** `LANG_CODE_MAP.get(code, code)`. */
  function MapCode(code: string): string {
    if code in LangCodeMap then LangCodeMap[code] else code
  }

  /** `_lang_pair`: because the map is the identity on its keys, the pair comes back unchanged. */
  function LangPair(src: string, tgt: string): (r: (string, string))
    ensures r == (src, tgt)
  {
    (MapCode(src), MapCode(tgt))
  }

  /** `f"Helsinki-NLP/opus-mt-{s}-{t}"`. */
  function ModelName(s: string, t: string): (r: string)
    ensures |r| == |"Helsinki-NLP/opus-mt-"| + |s| + 1 + |t|
    ensures r[..|"Helsinki-NLP/opus-mt-"|] == "Helsinki-NLP/opus-mt-"
    // the source code, then a dash, then the target code
    ensures r[|"Helsinki-NLP/opus-mt-"|..|"Helsinki-NLP/opus-mt-"| + |s|] == s
    ensures r[|"Helsinki-NLP/opus-mt-"| + |s|] == '-'
    ensures r[|"Helsinki-NLP/opus-mt-"| + |s| + 1..] == t
  {
    "Helsinki-NLP/opus-mt-" + s + "-" + t
  }

  /** A loaded translator: one pipeline, or two chained through English. */
  datatype Translator = Direct(model: string) | Pivot(toEnglish: string, fromEnglish: string)

  /**
   * The translation environment: whether `transformers` imported at all,
   * which model names load, and what running a loaded model on a text gives
   * (`None`: the call raised).
   */
  datatype TranslateEnv = TranslateEnv(
    pipelineAvailable: bool,
    loads: string -> bool,
    run: (string, string) -> Option<string>
  )

  /** `_get_translator`. */
  function GetTranslator(src: string, tgt: string, env: TranslateEnv): (r: Option<Translator>)
    // nothing when the library is missing or there is nothing to translate
    ensures !env.pipelineAvailable || src == tgt ==> r.None?
    // the direct pair is tried first and wins whenever it loads
    ensures r.Some? && r.value.Direct? <==>
      env.pipelineAvailable && src != tgt && env.loads(ModelName(src, tgt))
    ensures r.Some? && r.value.Direct? ==> r.value.model == ModelName(src, tgt)
    // the pivot is only tried when the direct pair fails and neither side is English
    ensures r.Some? && r.value.Pivot? ==>
      && env.pipelineAvailable && src != tgt && !env.loads(ModelName(src, tgt))
      && src != "en" && tgt != "en"
      && r.value == Pivot(ModelName(src, "en"), ModelName("en", tgt))
      && env.loads(r.value.toEnglish) && env.loads(r.value.fromEnglish)
    // every other failure gives None
    ensures r.None? && env.pipelineAvailable && src != tgt ==>
      && !env.loads(ModelName(src, tgt))
      && (src == "en" || tgt == "en" || !env.loads(ModelName(src, "en")) || !env.loads(ModelName("en", tgt)))
  {
    if !env.pipelineAvailable || src == tgt then None
    else
      var (s, t) := LangPair(src, tgt);
      var direct := ModelName(s, t);
      if env.loads(direct) then Some(Direct(direct))
      else if s != "en" && t != "en" then
        var first := ModelName(s, "en");
        var second := ModelName("en", t);
        if env.loads(first) && env.loads(second) then Some(Pivot(first, second)) else None
      else None
  }

  /** Runs a loaded translator; a pivot feeds the first stage's output to the second. */
  function Run(tr: Translator, text: string, env: TranslateEnv): (r: Option<string>)
    ensures tr.Direct? ==> r == env.run(tr.model, text)
    ensures tr.Pivot? && env.run(tr.toEnglish, text).None? ==> r.None?
    ensures tr.Pivot? && env.run(tr.toEnglish, text).Some? ==>
      r == env.run(tr.fromEnglish, env.run(tr.toEnglish, text).value)
  {
    match tr
    case Direct(m) => env.run(m, text)
    case Pivot(m1, m2) =>
      match env.run(m1, text)
      case None => None
      case Some(mid) => env.run(m2, mid)
  }

  /** `translate_text`. */
  function TranslateText(text: string, src: string, tgt: string, env: TranslateEnv): (r: string)
    // identity short-cuts
    ensures text == "" || src == tgt ==> r == text
    // no translator, or the translator raised: the input comes back
    ensures GetTranslator(src, tgt, env).None? ==> r == text
    ensures text != "" && GetTranslator(src, tgt, env).Some? ==>
      r == Run(GetTranslator(src, tgt, env).value, text, env).GetOr(text)
  {
    if text == "" || src == tgt then text
    else
      match GetTranslator(src, tgt, env)
      case None => text
      case Some(tr) => Run(tr, text, env).GetOr(text)
  }

  /**
   * Whatever happens, the result is the input or the output of a model run:
   * translation never makes text up.
   */
  lemma TranslateOutputOrigin(text: string, src: string, tgt: string, env: TranslateEnv)
    ensures var r := TranslateText(text, src, tgt, env);
      r == text || exists m, x :: env.run(m, x) == Some(r)
  {
    var r := TranslateText(text, src, tgt, env);
    if r != text {
      var tr := GetTranslator(src, tgt, env).value;
      match tr
      case Direct(m) => assert env.run(m, text) == Some(r);
      case Pivot(m1, m2) =>
        var mid := env.run(m1, text).value;
        assert env.run(m2, mid) == Some(r);
    }
  }

  /** Without the `transformers` library every text comes back unchanged. */
  lemma NoPipelineIsIdentity(text: string, src: string, tgt: string, env: TranslateEnv)
    requires !env.pipelineAvailable
    ensures TranslateText(text, src, tgt, env) == text
  {
  }

  /** A pivot translation is the second model applied to the first model's output. */
  lemma PivotComposes(text: string, src: string, tgt: string, env: TranslateEnv, mid: string)
    requires text != ""
    requires GetTranslator(src, tgt, env).Some? && GetTranslator(src, tgt, env).value.Pivot?
    requires env.run(ModelName(src, "en"), text) == Some(mid)
    requires env.run(ModelName("en", tgt), mid).Some?
    ensures TranslateText(text, src, tgt, env) == env.run(ModelName("en", tgt), mid).value
  {
  }
}
