/**
 * The `/query` and `/query-image` handlers. Both rank the hits of a vector
 * search with the shared retrieval rule, generate a description, and
 * report metrics. The embedders, the vector search, base64 decoding, the
 * generator and the BLEU scorer are oracles (`None`: the call raised);
 * the elapsed time is a parameter.
 */
module Query {
  import opened Wrappers
  import opened Payloads
  import opened VectorStore
  import opened Retrieval
  import opened Translate
  import TextClean
  import CharRuns

  /** `limit=30` on every search. */
  const SEARCH_LIMIT: nat := 30

  /** The named vector a search runs against. */
  datatype Space = ClipSpace | TextSpace

  /** What `generate_description` is asked to describe: image bytes or a text. */
  datatype GenInput = ImageInput(bytes: Bytes) | TextInput(text: string)

  datatype QueryEnv = QueryEnv(
    clipEnabled: bool,                                       // ENABLE_CLIP
    clipText: string -> Option<Vector>,
    clipImage: Bytes -> Option<Vector>,
    multiText: string -> Option<Vector>,
    search: (Vector, Space, nat) -> Option<seq<Hit>>,
    b64decode: string -> Option<Bytes>,
    describe: (GenInput, string, Option<string>) -> Option<string>,  // input, lang, user_query
    bleu: (seq<seq<string>>, seq<string>) -> Option<real>,          // references, candidate
    translate: TranslateEnv
  )

  datatype QueryRequest = QueryRequest(query: string, lang: string, userId: string)

  datatype Metrics = Metrics(cosineAvg: real, bleuScore: real, latency: int)

  datatype QueryResponse = QueryResponse(results: seq<Payload>, generation: string, metrics: Metrics)

  // ---------------------------------------------------------------- query vectors and hits

  /** The CLIP query vector: the text embedding when enabled, zeros when disabled or when it raises. */
  function ClipQuery(env: QueryEnv, query: string): (v: Vector)
    ensures !env.clipEnabled ==> v == Zeros(CLIP_DIM)
    ensures env.clipEnabled && env.clipText(query).Some? ==> v == env.clipText(query).value
    ensures env.clipEnabled && env.clipText(query).None? ==> v == Zeros(CLIP_DIM)
  {
    if env.clipEnabled then env.clipText(query).GetOr(Zeros(CLIP_DIM)) else Zeros(CLIP_DIM)
  }

  /**
   * The hits `/query` ranks: the CLIP-space hits (none when that search
   * raises) followed by the text-space hits. `None` when the multilingual
   * embedding or the text-space search raises, neither of which is caught.
   */
  function QueryHits(req: QueryRequest, env: QueryEnv): (r: Option<seq<Hit>>)
    ensures r.None? <==>
      env.multiText(req.query).None? || env.search(env.multiText(req.query).value, TextSpace, SEARCH_LIMIT).None?
    ensures r.Some? ==>
      r.value == env.search(ClipQuery(env, req.query), ClipSpace, SEARCH_LIMIT).GetOr([])
                 + env.search(env.multiText(req.query).value, TextSpace, SEARCH_LIMIT).value
  {
    match env.multiText(req.query)
    case None => None
    case Some(multi) =>
      match env.search(multi, TextSpace, SEARCH_LIMIT)
      case None => None
      case Some(textHits) =>
        Some(env.search(ClipQuery(env, req.query), ClipSpace, SEARCH_LIMIT).GetOr([]) + textHits)
  }

  // ---------------------------------------------------------------- generation source

  /** `r.get("type") == "image" and r.get("image_b64")`. */
  predicate ImageCandidate(p: Payload) {
    p.kind == Some("image") && Present(p.imageB64)
  }

  /** The position of the first image candidate among the results. */
  function FirstImage(results: seq<Payload>): (r: Option<nat>)
    ensures r.Some? ==> r.value < |results| && ImageCandidate(results[r.value])
    ensures r.Some? ==> forall j :: 0 <= j < r.value ==> !ImageCandidate(results[j])
    ensures r.None? ==> forall j :: 0 <= j < |results| ==> !ImageCandidate(results[j])
  {
    if results == [] then None
    else if ImageCandidate(results[0]) then Some(0)
    else match FirstImage(results[1..])
      case None => None
      case Some(k) => Some(k + 1)
  }

  /** The non-empty contents of the results, in result order. */
  function Contents(results: seq<Payload>): (cs: seq<string>)
    ensures forall c :: c in cs ==> c != ""
    ensures cs == [] <==> forall j :: 0 <= j < |results| ==> !Present(results[j].content)
  {
    if results == [] then []
    else if Present(results[0].content) then [results[0].content.value] + Contents(results[1..])
    else
      assert forall j :: 1 <= j < |results| ==> results[1..][j - 1] == results[j];
      Contents(results[1..])
  }

  /**
   * `Contents` keeps exactly the present contents, in result order: nothing
   * from a result without content, the content of one that has it, and the
   * contents of a concatenation are those of its parts one after the other.
   */
  lemma ContentsSpec(a: seq<Payload>, b: seq<Payload>, p: Payload)
    ensures Contents([]) == []
    ensures Contents([p]) == if Present(p.content) then [p.content.value] else []
    ensures Contents(a + b) == Contents(a) + Contents(b)
  {
    ContentsAppend(a, b);
  }

  lemma {:induction false} ContentsAppend(a: seq<Payload>, b: seq<Payload>)
    ensures Contents(a + b) == Contents(a) + Contents(b)
  {
    if a != [] {
      assert (a + b)[0] == a[0];
      assert (a + b)[1..] == a[1..] + b;
      ContentsAppend(a[1..], b);
    } else {
      assert a + b == b;
    }
  }

  /** `"\n".join(parts)`. */
  function JoinLines(parts: seq<string>): string {
    if parts == [] then ""
    else if |parts| == 1 then parts[0]
    else parts[0] + "\n" + JoinLines(parts[1..])
  }

  /** Joining non-empty parts gives the empty text only when there are none. */
  lemma {:induction false} JoinLinesEmpty(parts: seq<string>)
    requires forall c :: c in parts ==> c != ""
    ensures JoinLines(parts) == "" <==> parts == []
  {
    if |parts| >= 1 {
      assert parts[0] in parts;
      assert |JoinLines(parts)| >= |parts[0]| > 0 by {
        if |parts| > 1 {
          assert JoinLines(parts) == parts[0] + "\n" + JoinLines(parts[1..]);
        }
      }
    }
  }

  /** The text the fallback generation describes: the joined contents, or the query when there are none. */
  function TextSource(results: seq<Payload>, query: string): string {
    var context := JoinLines(Contents(results));
    if context != "" then context else query
  }

  /** The fallback source is the query exactly when no result has content. */
  lemma TextSourceSpec(results: seq<Payload>, query: string)
    ensures (forall j :: 0 <= j < |results| ==> !Present(results[j].content)) ==> TextSource(results, query) == query
    ensures (exists j :: 0 <= j < |results| && Present(results[j].content)) ==>
      TextSource(results, query) == JoinLines(Contents(results)) && TextSource(results, query) != ""
  {
    JoinLinesEmpty(Contents(results));
  }

  /**
   * The generation from the first image candidate: its decoded image
   * described in the request language; `""` when there is no candidate or
   * when decoding or describing raises (the handler catches both).
   */
  function ImageGeneration(results: seq<Payload>, lang: string, query: string, env: QueryEnv): string {
    match FirstImage(results)
    case None => ""
    case Some(i) =>
      match env.b64decode(results[i].imageB64.value)
      case None => ""
      case Some(bytes) => env.describe(ImageInput(bytes), lang, Some(query)).GetOr("")
  }

  /**
   * The generation of `/query`: the image description when it is non-empty,
   * otherwise a description of the text source; `None` when that second call
   * raises, which is not caught.
   */
  function Generation(results: seq<Payload>, lang: string, query: string, env: QueryEnv): Option<string> {
    var g := ImageGeneration(results, lang, query, env);
    if g != "" then Some(g) else env.describe(TextInput(TextSource(results, query)), lang, Some(query))
  }

  /**
   * Image results are preferred: a non-empty description of the first image
   * candidate is the generation; otherwise the text source is described.
   */
  lemma GenerationPrefersImage(results: seq<Payload>, lang: string, query: string, env: QueryEnv, i: nat, bytes: Bytes)
    requires i < |results| && ImageCandidate(results[i])
    requires forall j :: 0 <= j < i ==> !ImageCandidate(results[j])
    requires env.b64decode(results[i].imageB64.value) == Some(bytes)
    ensures var d := env.describe(ImageInput(bytes), lang, Some(query));
      && (d.Some? && d.value != "" ==> Generation(results, lang, query, env) == d)
      && (d.None? || d.value == "" ==>
          Generation(results, lang, query, env) == env.describe(TextInput(TextSource(results, query)), lang, Some(query)))
  {
  }

  /** Without an image candidate, the generation always describes the text source. */
  lemma GenerationWithoutImage(results: seq<Payload>, lang: string, query: string, env: QueryEnv)
    requires forall j :: 0 <= j < |results| ==> !ImageCandidate(results[j])
    ensures Generation(results, lang, query, env) == env.describe(TextInput(TextSource(results, query)), lang, Some(query))
  {
  }

  // ---------------------------------------------------------------- metrics

  /** The sum of the kept scores. */
  function ScoreSum(ranked: seq<Entry>): real {
    if ranked == [] then 0.0 else ranked[0].score + ScoreSum(ranked[1..])
  }

  /** `np.mean(scores) if results else 0.0`. */
  function CosineAvg(ranked: seq<Entry>): real {
    if ranked == [] then 0.0 else ScoreSum(ranked) / (|ranked| as real)
  }

  lemma {:induction false} ScoreSumBounds(ranked: seq<Entry>, lo: real, hi: real)
    requires forall e :: e in ranked ==> lo <= e.score <= hi
    ensures (|ranked| as real) * lo <= ScoreSum(ranked) <= (|ranked| as real) * hi
  {
    if ranked != [] {
      assert ranked[0] in ranked;
      forall e | e in ranked[1..] ensures lo <= e.score <= hi {
        assert e in ranked;
      }
      ScoreSumBounds(ranked[1..], lo, hi);
    }
  }

  /** The mean lies between the bounds of the scores it averages. */
  lemma CosineAvgBounds(ranked: seq<Entry>, lo: real, hi: real)
    requires ranked != []
    requires forall e :: e in ranked ==> lo <= e.score <= hi
    ensures lo <= CosineAvg(ranked) <= hi
  {
    ScoreSumBounds(ranked, lo, hi);
    var n := |ranked| as real;
    DivideBounds(ScoreSum(ranked), n, lo, hi);
  }

  lemma DivideBounds(s: real, n: real, lo: real, hi: real)
    requires n > 0.0 && n * lo <= s <= n * hi
    ensures lo <= s / n <= hi
  {
    assert s / n - lo == (s - n * lo) / n;
    assert hi - s / n == (n * hi - s) / n;
  }

  /**
   * The reported `cosine_avg`: 0 without results, otherwise at least the
   * 0.3 threshold and at most the top result's score.
   */
  lemma CosineAvgOfRanked(c: seq<Entry>)
    ensures Ranked(c) == [] ==> CosineAvg(Ranked(c)) == 0.0
    ensures Ranked(c) != [] ==> THRESHOLD <= CosineAvg(Ranked(c)) <= Ranked(c)[0].score
  {
    var r := Ranked(c);
    RankedShape(c);
    if r != [] {
      forall e | e in r ensures THRESHOLD <= e.score <= r[0].score {
        var i :| 0 <= i < |r| && r[i] == e;
        if i > 0 {
          assert ScoreGeq(r[0], r[i]);
        }
      }
      CosineAvgBounds(r, THRESHOLD, r[0].score);
    }
  }

  predicate NotSpace(c: char) {
    !TextClean.IsSpace(c)
  }

  /** `s.split()`: the maximal runs of non-whitespace characters. */
  function Fields(s: string): seq<string> {
    CharRuns.Runs(s, NotSpace)
  }

  /**
   * The words of `split()` are exactly the maximal runs of non-whitespace:
   * each sits at its start offset between whitespace (or the ends), the
   * offsets increase, and every non-whitespace character lies in one of them.
   */
  lemma FieldsMaximal(s: string)
    ensures CharRuns.AreMaximalRuns(s, NotSpace, Fields(s), CharRuns.RunStarts(s, NotSpace))
  {
    CharRuns.RunsMaximal(s, NotSpace);
  }

  /** A text splits into no words exactly when it is all whitespace. */
  lemma {:induction false} FieldsEmpty(s: string)
    ensures Fields(s) == [] <==> forall k :: 0 <= k < |s| ==> TextClean.IsSpace(s[k])
    decreases |s|
  {
    if s != [] && TextClean.IsSpace(s[0]) {
      FieldsEmpty(s[1..]);
      assert forall k :: 1 <= k < |s| ==> s[k] == s[1..][k - 1];
    }
  }

  /** The BLEU references: the words of the first result's content (default `""`), or one empty reference. */
  function References(results: seq<Payload>): (refs: seq<seq<string>>)
    ensures |refs| == 1
    ensures results == [] ==> refs[0] == []
    ensures results != [] ==> refs[0] == Fields(results[0].content.GetOr(""))
  {
    if results != [] then [Fields(results[0].content.GetOr(""))] else [[]]
  }

  /**
   * `sentence_bleu(references, candidate)` with the generation's words as
   * the candidate; 0 when the generation has no words or when scoring raises.
   */
  function BleuScore(results: seq<Payload>, generation: string, env: QueryEnv): (b: real)
    ensures (forall k :: 0 <= k < |generation| ==> TextClean.IsSpace(generation[k])) ==> b == 0.0
    ensures (exists k :: 0 <= k < |generation| && !TextClean.IsSpace(generation[k])) ==>
      var scored := env.bleu(References(results), Fields(generation));
      && (scored.None? ==> b == 0.0)
      && (scored.Some? ==> b == scored.value)
  {
    FieldsEmpty(generation);
    var candidate := Fields(generation);
    if candidate != [] then env.bleu(References(results), candidate).GetOr(0.0) else 0.0
  }

  // ---------------------------------------------------------------- the handlers

  /**
   * The generation step of `/query`: try the first image candidate, and
   * describe the text source when that yields nothing.
   */
  method Generate(results: seq<Payload>, lang: string, query: string, env: QueryEnv) returns (generation: Option<string>)
    ensures generation == Generation(results, lang, query, env)
  {
    var g := "";
    var candidate := FirstImage(results);
    if candidate.Some? {
      var bytes := env.b64decode(results[candidate.value].imageB64.value);
      if bytes.Some? {
        var described := env.describe(ImageInput(bytes.value), lang, Some(query));
        if described.Some? {
          g := described.value;
        }
      }
    }
    if g == "" {
      generation := env.describe(TextInput(TextSource(results, query)), lang, Some(query));
    } else {
      generation := Some(g);
    }
  }

  /** The `/query` handler; `latency` is the measured elapsed time in milliseconds. */
  method QueryContent(req: QueryRequest, latency: int, env: QueryEnv)
    returns (response: Result<QueryResponse, HttpError>)
    ensures response.Err? <==>
      QueryHits(req, env).None? ||
      Generation(Results(QueryHits(req, env).value, req.userId, req.lang, env.translate), req.lang, req.query, env).None?
    ensures response.Err? ==> response.error == InternalServerError
    ensures response.Ok? ==>
      var hits := QueryHits(req, env).value;
      var results := Results(hits, req.userId, req.lang, env.translate);
      var generation := Generation(results, req.lang, req.query, env).value;
      response.value == QueryResponse(results, generation,
        Metrics(CosineAvg(Ranked(Merged(hits, req.userId))), BleuScore(results, generation, env), latency))
  {
    var clipQ := if env.clipEnabled then env.clipText(req.query).GetOr(Zeros(CLIP_DIM)) else Zeros(CLIP_DIM);
    var multiQ := env.multiText(req.query);
    if multiQ.None? {
      return Err(InternalServerError);
    }
    var clipHits := env.search(clipQ, ClipSpace, SEARCH_LIMIT);
    if clipHits.None? {
      clipHits := Some([]);
    }
    var textHits := env.search(multiQ.value, TextSpace, SEARCH_LIMIT);
    if textHits.None? {
      return Err(InternalServerError);
    }
    var results, ranked := RankHits(clipHits.value + textHits.value, req.userId, req.lang, env.translate);

    var generation := Generate(results, req.lang, req.query, env);
    if generation.None? {
      return Err(InternalServerError);
    }
    var metrics := Metrics(CosineAvg(ranked), BleuScore(results, generation.value, env), latency);
    response := Ok(QueryResponse(results, generation.value, metrics));
  }

  datatype ImageQuery = ImageQuery(bytes: Bytes, userId: string, lang: string, question: Option<string>)

  /** The CLIP vector of the query image: its embedding when enabled, zeros when disabled or when it raises. */
  function ClipImageQuery(env: QueryEnv, bytes: Bytes): (v: Vector)
    ensures !env.clipEnabled ==> v == Zeros(CLIP_DIM)
    ensures env.clipEnabled && env.clipImage(bytes).Some? ==> v == env.clipImage(bytes).value
    ensures env.clipEnabled && env.clipImage(bytes).None? ==> v == Zeros(CLIP_DIM)
  {
    if env.clipEnabled then env.clipImage(bytes).GetOr(Zeros(CLIP_DIM)) else Zeros(CLIP_DIM)
  }

  /**
   * The `/query-image` handler: CLIP-space hits only, a generation grounded
   * in the query image itself, and a BLEU score that is always 0.
   */
  method QueryByImage(req: ImageQuery, latency: int, env: QueryEnv)
    returns (response: Result<QueryResponse, HttpError>)
    ensures var hits := env.search(ClipImageQuery(env, req.bytes), ClipSpace, SEARCH_LIMIT);
      && (response.Err? <==> hits.None? || env.describe(ImageInput(req.bytes), req.lang, req.question).None?)
      && (response.Err? ==> response.error == InternalServerError)
      && (response.Ok? ==>
          response.value == QueryResponse(
            Results(hits.value, req.userId, req.lang, env.translate),
            env.describe(ImageInput(req.bytes), req.lang, req.question).value,
            Metrics(CosineAvg(Ranked(Merged(hits.value, req.userId))), 0.0, latency)))
  {
    var clipQ := Zeros(CLIP_DIM);
    if env.clipEnabled {
      var embedded := env.clipImage(req.bytes);
      if embedded.Some? {
        clipQ := embedded.value;
      }
    }
    var hits := env.search(clipQ, ClipSpace, SEARCH_LIMIT);
    if hits.None? {
      return Err(InternalServerError);
    }
    var results, ranked := RankHits(hits.value, req.userId, req.lang, env.translate);
    var generation := env.describe(ImageInput(req.bytes), req.lang, req.question);
    if generation.None? {
      return Err(InternalServerError);
    }
    response := Ok(QueryResponse(results, generation.value, Metrics(CosineAvg(ranked), 0.0, latency)));
  }
}
