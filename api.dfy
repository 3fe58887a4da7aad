/**
 * The handlers of the application module: the bearer-token check, story
 * generation grounded in a stored point, and the upload history. The
 * vector store's client, base64 decoding and the story generators are
 * oracles (`None`: the call raised).
 */
module Api {
  import opened Wrappers
  import opened Payloads
  import opened VectorStore

  // ---------------------------------------------------------------- verify_token

  const InvalidToken: HttpError := HttpError(401, "Invalid token")

  /** `verify_token`: the bearer credential, which must be present and non-empty. */
  function VerifyToken(credentials: Option<string>): (r: Result<string, HttpError>)
    ensures r.Err? <==> credentials.None? || credentials.value == ""
    ensures r.Err? ==> r.error == InvalidToken
    ensures r.Ok? ==> credentials == Some(r.value) && r.value != ""
  {
    if !Present(credentials) then Err(InvalidToken) else Ok(credentials.value)
  }

  // ---------------------------------------------------------------- generate_story

  datatype StoryRequest = StoryRequest(query: string, lang: string, userId: string, contentId: Option<string>)

  /** The response of `/generate-story`; `contentId` is only set on grounded stories. */
  datatype Story = Story(story: string, lang: string, grounded: bool, contentId: Option<string>)

  datatype StoryEnv = StoryEnv(
    retrieve: string -> Option<seq<StoredPoint>>,
    scroll: Scroll,
    b64decode: string -> Option<Bytes>,
    describe: (string, string) -> Option<string>,            // prompt, lang (narrative style)
    fromImage: (Bytes, string, string) -> Option<string>,    // image, lang, theme
    fromText: (string, string, string) -> Option<string>     // context, lang, theme
  )

  /** How many recent points the fallbacks look at. */
  const RECENT: nat := 10

  /** The prompt for a story from the theme alone. */
  function ThemePrompt(lang: string, theme: string): string {
    "Write a creative short story in " + lang + " inspired by the theme: " + theme + ". "
    + "No image was found for the user, so do not reference visual details."
  }

  /** The words the fallback story opens with, before the quoted theme. */
  const FALLBACK_OPENING: string := "A story inspired by '"

  /** The story returned when anything raises: it quotes the theme right after its opening words. */
  function FallbackStory(req: StoryRequest): (r: Story)
    ensures r.lang == req.lang && !r.grounded && r.contentId.None?
    ensures |FALLBACK_OPENING| + |req.query| <= |r.story|
    ensures r.story[..|FALLBACK_OPENING|] == FALLBACK_OPENING
    ensures r.story[|FALLBACK_OPENING|..|FALLBACK_OPENING| + |req.query|] == req.query
  {
    Story(FALLBACK_OPENING + req.query + "'. Due to a temporary error, the output may be limited.",
          req.lang, false, None)
  }

  /**
   * The point a story is grounded in: the explicitly requested point when it
   * can be retrieved, else the first of the user's recent image points, else
   * the first of the user's recent points of any type.
   */
  ghost function StorySource(req: StoryRequest, env: StoryEnv, bound: nat): Option<Item>
    requires Progressing(env.scroll, bound)
  {
    var explicit := if Present(req.contentId) then RetrievePoint(req.contentId.value, env.retrieve) else None;
    if explicit.Some? then explicit
    else
      var images := ListSpec(req.userId, Some("image"), RECENT, env.scroll, bound);
      if images != [] then Some(images[0])
      else
        var any := ListSpec(req.userId, None, RECENT, env.scroll, bound);
        if any != [] then Some(any[0]) else None
  }

  /** `ctype == "image" and payload.get("image_b64")`. */
  predicate ImageSource(p: Payload) {
    p.kind == Some("image") && Present(p.imageB64)
  }

  /**
   * The story told from a chosen source: from the theme alone without one,
   * from the decoded image for an image point with image data, from the
   * content (default `""`) for any other point; the fallback story when a
   * call raises.
   */
  function StoryFrom(source: Option<Item>, req: StoryRequest, env: StoryEnv): (r: Story)
    ensures r.lang == req.lang
    ensures source.None? ==> !r.grounded && r.contentId.None?
    ensures r.grounded <==> r.contentId.Some?
    ensures r.grounded ==> source.Some? && r.contentId == Some(source.value.id)
    ensures source.Some? && !r.grounded ==> r == FallbackStory(req)
    // without a source: the theme-only prompt, told in narrative style
    ensures source.None? ==>
      var told := env.describe(ThemePrompt(req.lang, req.query), req.lang);
      && (told.Some? ==> r == Story(told.value, req.lang, false, None))
      && (told.None? ==> r == FallbackStory(req))
    // an image point with image data: its decoded image
    ensures source.Some? && ImageSource(source.value.payload) ==>
      var bytes := env.b64decode(source.value.payload.imageB64.value);
      && (bytes.None? ==> r == FallbackStory(req))
      && (bytes.Some? && env.fromImage(bytes.value, req.lang, req.query).Some? ==>
            r == Story(env.fromImage(bytes.value, req.lang, req.query).value, req.lang, true, Some(source.value.id)))
      && (bytes.Some? && env.fromImage(bytes.value, req.lang, req.query).None? ==> r == FallbackStory(req))
    // any other point: its content, "" when it has none
    ensures source.Some? && !ImageSource(source.value.payload) ==>
      var told := env.fromText(source.value.payload.content.GetOr(""), req.lang, req.query);
      && (told.Some? ==> r == Story(told.value, req.lang, true, Some(source.value.id)))
      && (told.None? ==> r == FallbackStory(req))
  {
    match source
    case None =>
      (match env.describe(ThemePrompt(req.lang, req.query), req.lang)
       case None => FallbackStory(req)
       case Some(s) => Story(s, req.lang, false, None))
    case Some(item) =>
      var told :=
        if ImageSource(item.payload) then
          (match env.b64decode(item.payload.imageB64.value)
           case None => None
           case Some(bytes) => env.fromImage(bytes, req.lang, req.query))
        else env.fromText(item.payload.content.GetOr(""), req.lang, req.query);
      match told
      case None => FallbackStory(req)
      case Some(s) => Story(s, req.lang, true, Some(item.id))
  }

  /** `generate_story`: pick the source step by step, then tell the story. */
  method GenerateStory(req: StoryRequest, env: StoryEnv, ghost bound: nat) returns (story: Story)
    requires Progressing(env.scroll, bound)
    ensures story == StoryFrom(StorySource(req, env, bound), req, env)
  {
    var point: Option<Item> := None;
    if Present(req.contentId) {
      point := RetrievePoint(req.contentId.value, env.retrieve);
    }
    if point.None? {
      var items := ListUserPoints(req.userId, Some("image"), RECENT, env.scroll, bound);
      if items != [] {
        point := Some(items[0]);
      }
    }
    if point.None? {
      var items := ListUserPoints(req.userId, None, RECENT, env.scroll, bound);
      if items != [] {
        point := Some(items[0]);
      }
    }
    story := StoryFrom(point, req, env);
  }

  /** A point that can be retrieved by the requested id grounds the story, whatever its type. */
  lemma ExplicitPointWins(req: StoryRequest, env: StoryEnv, bound: nat, item: Item)
    requires Progressing(env.scroll, bound)
    requires Present(req.contentId) && RetrievePoint(req.contentId.value, env.retrieve) == Some(item)
    ensures StorySource(req, env, bound) == Some(item)
  {
  }

  /**
   * Without a retrievable explicit point, a user who has image points gets
   * a story grounded in an image point: their most recent one among those
   * listed.
   */
  lemma ImagesBeforeText(req: StoryRequest, env: StoryEnv, bound: nat)
    requires Progressing(env.scroll, bound)
    requires !Present(req.contentId) || RetrievePoint(req.contentId.value, env.retrieve).None?
    requires ListSpec(req.userId, Some("image"), RECENT, env.scroll, bound) != []
    ensures StorySource(req, env, bound).Some?
    ensures StorySource(req, env, bound).value.payload.kind == Some("image")
  {
    ListSpecProperties(req.userId, Some("image"), RECENT, env.scroll, bound);
  }

  // ---------------------------------------------------------------- get_history

  /** How many points the history lists. */
  const HISTORY_LIMIT: nat := 50

  /** One history row. */
  datatype HistoryEntry = HistoryEntry(id: string, kind: string, lang: string, timestamp: Option<string>,
                                       originalName: Option<string>)

  /** The projection of a listed point, with type `"unknown"` and language `"en"` by default. */
  function Project(item: Item): (h: HistoryEntry)
    ensures h.id == item.id && h.timestamp == item.payload.timestamp && h.originalName == item.payload.originalName
    ensures item.payload.kind.Some? ==> h.kind == item.payload.kind.value
    ensures item.payload.kind.None? ==> h.kind == "unknown"
    ensures item.payload.lang.Some? ==> h.lang == item.payload.lang.value
    ensures item.payload.lang.None? ==> h.lang == "en"
  {
    HistoryEntry(item.id, item.payload.kind.GetOr("unknown"), item.payload.lang.GetOr("en"),
                 item.payload.timestamp, item.payload.originalName)
  }

  /** `get_history`: one row per listed point, in listing order, newest first, at most 50. */
  method GetHistory(user: string, scroll: Scroll, ghost bound: nat) returns (history: seq<HistoryEntry>)
    requires Progressing(scroll, bound)
    ensures var items := ListSpec(user, None, HISTORY_LIMIT, scroll, bound);
      && |history| == |items| <= HISTORY_LIMIT
      && (forall k :: 0 <= k < |history| ==> history[k] == Project(items[k]))
      && (forall i, j :: 0 <= i < j < |history| ==>
            StrLe(history[j].timestamp.GetOr(""), history[i].timestamp.GetOr("")))
  {
    var items := ListUserPoints(user, None, HISTORY_LIMIT, scroll, bound);
    ListSpecProperties(user, None, HISTORY_LIMIT, scroll, bound);
    history := [];
    for k := 0 to |items|
      invariant |history| == k
      invariant forall m :: 0 <= m < k ==> history[m] == Project(items[m])
    {
      history := history + [Project(items[k])];
    }
    forall i, j | 0 <= i < j < |history|
      ensures StrLe(history[j].timestamp.GetOr(""), history[i].timestamp.GetOr(""))
    {
      assert NewerOrSame(items[i], items[j]);
    }
  }
}
